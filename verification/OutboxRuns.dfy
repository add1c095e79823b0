/** What single statements on the table, and pairs of them, guarantee. */
module OutboxRuns {
  import opened Options
  import opened Outbox

  function Sweep(rows: seq<Row>, now: int, staleSecs: int, pendingSecs: int): (r: seq<Row>)
    ensures |r| == |rows|
  {
    SweepFail(SweepRequeue(rows, now, staleSecs), now, pendingSecs)
  }

  function ReasonOr(r: Row, other: string): string {
    if r.reason.Some? then r.reason.value else other
  }

  // ---------- The reconciler's sweep ----------

  /** Pending for longer than the limit, in whole seconds but at least one, with an attempt behind it. */
  predicate AgedOut(r: Row, now: int, pendingSecs: int) {
    && r.status == Pending && now - r.createdAt > 1000 && now - r.createdAt > 1000 * pendingSecs && r.retryCount >= 1
  }

  /**
  After a sweep no lease is over and nothing has aged out, terminal rows are untouched, and only
  bookkeeping changed. What failed was pending or stale, old enough, and attempted.
  */
  lemma SweepClears(rows: seq<Row>, now: int, staleSecs: int, pendingSecs: int)
    ensures var out := Sweep(rows, now, staleSecs, pendingSecs);
      forall i :: 0 <= i < |rows| ==>
        && !Stale(out[i], now, staleSecs) && !OverAge(out[i], now, pendingSecs)
        && !LeaseOver(out[i], now, staleSecs, None) && !AgedOut(out[i], now, pendingSecs)
        && SameOtherwise(rows[i], out[i])
        && (!LeaseOver(rows[i], now, staleSecs, None) && !AgedOut(rows[i], now, pendingSecs) ==> out[i] == rows[i])
        && (rows[i].status in {Posted, Failed} ==> out[i] == rows[i])
        && (out[i].status == Failed && rows[i].status != Failed ==>
             && out[i].terminalFailureAt == Some(now) && out[i].nextRetryAt.None? && out[i].updatedAt == now
             && rows[i].retryCount >= 1 && rows[i].createdAt < now - Millis(pendingSecs)
             && (rows[i].status == Pending ==> out[i].reason == Some(ReasonOr(rows[i], REASON_AGE))))
        && (out[i].status == Pending ==>
             out[i].nextRetryAt == rows[i].nextRetryAt && out[i].terminalFailureAt == rows[i].terminalFailureAt)
  {
  }

  /** A stale row that is old enough and was attempted goes through both transitions and keeps the first reason. */
  lemma SweepTakesBothSteps(rows: seq<Row>, now: int, staleSecs: int, pendingSecs: int, i: nat)
    requires i < |rows| && Stale(rows[i], now, staleSecs)
    ensures var out := Sweep(rows, now, staleSecs, pendingSecs)[i];
      if rows[i].retryCount >= 1 && rows[i].createdAt < now - Millis(pendingSecs) then
        out.status == Failed && out.reason == Some(REASON_STALE)
      else out.status == Pending && out.reason == Some(REASON_STALE) && out.updatedAt == now
  {
  }

  /** A second sweep at the same instant changes nothing: both its statements affect no row. */
  lemma SweepTwice(rows: seq<Row>, now: int, staleSecs: int, pendingSecs: int)
    ensures var out := Sweep(rows, now, staleSecs, pendingSecs);
      && Sweep(out, now, staleSecs, pendingSecs) == out
      && Changed(out, SweepRequeue(out, now, staleSecs)) == {}
      && Changed(SweepRequeue(out, now, staleSecs), out) == {}
  {
    var out := Sweep(rows, now, staleSecs, pendingSecs);
    SweepClears(rows, now, staleSecs, pendingSecs);
    assert SweepRequeue(out, now, staleSecs) == out;
  }

  // ---------- The worker's reclaim ----------

  /** After a reclaim no lease of the environment is over, and every row is what the reclaim makes of it. */
  lemma ReclaimClears(rows: seq<Row>, now: int, staleSecs: int, env: Option<string>)
    ensures var out := Reclaim(rows, now, staleSecs, env);
      forall i :: 0 <= i < |rows| ==>
        !LeaseOver(out[i], now, staleSecs, env) && Reclaimed(rows[i], out[i], now, staleSecs, env)
  {
  }

  /**
  A row whose lease is over, whoever held it and however often it was attempted, is taken by the next
  poll, if it is due, old enough, and fewer than `limit` eligible rows are as old.
  */
  lemma PollTakesStale(
    rows: seq<Row>, ids: seq<nat>, now: int, olderSecs: int, staleSecs: int, limit: nat, env: Option<string>, k: nat)
    requires OldestEligible(Reclaim(rows, now, staleSecs, env), ids, now, olderSecs, limit, env) && k < |rows|
    requires LeaseOver(rows[k], now, staleSecs, env) && rows[k].createdAt < now - Millis(olderSecs)
    requires rows[k].nextRetryAt.Some? ==> rows[k].nextRetryAt.value <= now
    requires |AsOldAs(Reclaim(rows, now, staleSecs, env), k, now, olderSecs, env)| < limit
    ensures k in ids
    ensures var r := ClaimAll(Reclaim(rows, now, staleSecs, env), ids, now)[k];
      r.status == Posting && r.retryCount == rows[k].retryCount + 1 && r.updatedAt == now && r.p == rows[k].p
  {
    ClaimedByRank(Reclaim(rows, now, staleSecs, env), ids, now, olderSecs, limit, env, k);
  }

  // ---------- Claim by id ----------

  /** Of two claims of one row only the first takes effect. */
  lemma ClaimedOnce(rows: seq<Row>, id: nat, t1: int, t2: int)
    ensures var once := TryClaim(rows, id, t1);
      && TryClaim(once, id, t2) == once
      && (id < |rows| && rows[id].status == Pending ==>
           !Stale(once[id], t1, 1) && once[id].updatedAt == t1 && once[id].retryCount == rows[id].retryCount)
  {
  }

  // ---------- Claiming a batch ----------

  /** The eligible rows that are strictly older than row `k`, and those at least as old. */
  ghost function OlderThan(rows: seq<Row>, k: nat, now: int, olderSecs: int, env: Option<string>): set<nat>
    requires k < |rows|
  {
    set i: nat | i < |rows| && Eligible(rows[i], now, olderSecs, env) && rows[i].createdAt < rows[k].createdAt
  }

  ghost function AsOldAs(rows: seq<Row>, k: nat, now: int, olderSecs: int, env: Option<string>): set<nat>
    requires k < |rows|
  {
    set i: nat | i < |rows| && i != k && Eligible(rows[i], now, olderSecs, env) && rows[i].createdAt <= rows[k].createdAt
  }

  function IdSet(ids: seq<nat>): set<nat> {
    set i | i in ids
  }

  lemma {:induction false} DistinctCardinality(ids: seq<nat>)
    requires forall i, j :: 0 <= i < j < |ids| ==> ids[i] != ids[j]
    ensures |IdSet(ids)| == |ids|
  {
    if ids != [] {
      var n := |ids| - 1;
      DistinctCardinality(ids[..n]);
      assert ids == ids[..n] + [ids[n]];
      assert IdSet(ids) == IdSet(ids[..n]) + {ids[n]};
    }
  }

  lemma SubsetCardinality(a: set<nat>, b: set<nat>)
    requires a <= b
    ensures |a| <= |b|
    decreases |a|
  {
    if a != {} {
      var x :| x in a;
      SubsetCardinality(a - {x}, b - {x});
    }
  }

  /**
  Which rows a claim takes, up to rows of equal age: a claimed row is eligible and has fewer than
  `limit` strictly older eligible rows; an eligible row with fewer than `limit` others at least
  as old is claimed.
  */
  lemma ClaimedByRank(
    rows: seq<Row>, ids: seq<nat>, now: int, olderSecs: int, limit: nat, env: Option<string>, k: nat)
    requires OldestEligible(rows, ids, now, olderSecs, limit, env) && k < |rows|
    ensures k in ids ==> Eligible(rows[k], now, olderSecs, env) && |OlderThan(rows, k, now, olderSecs, env)| < limit
    ensures Eligible(rows[k], now, olderSecs, env) && |AsOldAs(rows, k, now, olderSecs, env)| < limit ==> k in ids
  {
    var taken := IdSet(ids);
    DistinctCardinality(ids);
    if k in ids {
      var older := OlderThan(rows, k, now, olderSecs, env);
      forall i | i in older ensures i in taken - {k} { }
      SubsetCardinality(older, taken - {k});
    } else if Eligible(rows[k], now, olderSecs, env) {
      forall i | i in taken ensures i in AsOldAs(rows, k, now, olderSecs, env) { }
      SubsetCardinality(taken, AsOldAs(rows, k, now, olderSecs, env));
    }
  }

  /** Two claims with no write-back and no more than the lease between them share no row. */
  lemma ClaimsDisjoint(
    rows: seq<Row>, ids1: seq<nat>, ids2: seq<nat>, t1: int, t2: int, olderSecs: int, staleSecs: int,
    limit1: nat, limit2: nat, env1: Option<string>, env2: Option<string>)
    requires t1 <= t2 <= t1 + Millis(staleSecs)
    requires OldestEligible(Reclaim(rows, t1, staleSecs, env1), ids1, t1, olderSecs, limit1, env1)
    requires var after := ClaimAll(Reclaim(rows, t1, staleSecs, env1), ids1, t1);
      OldestEligible(Reclaim(after, t2, staleSecs, env2), ids2, t2, olderSecs, limit2, env2)
    ensures forall k :: !(k in ids1 && k in ids2)
  {
    var after := ClaimAll(Reclaim(rows, t1, staleSecs, env1), ids1, t1);
    forall k | k in ids1 ensures k !in ids2 {
      assert k < |rows|;
      assert !Stale(after[k], t2, staleSecs);
      assert Reclaim(after, t2, staleSecs, env2)[k] == after[k];
    }
  }

  /** One millisecond past the lease the bound is lost: both claims take the same row. */
  lemma ClaimsOverlapPastLease(rows: seq<Row>, k: nat, t1: int, olderSecs: int, staleSecs: int)
    requires k < |rows| && Eligible(rows[k], t1, olderSecs, None)
    requires forall i :: 0 <= i < |rows| && i != k ==> rows[i].status in {Posted, Failed}
    ensures var t2 := t1 + Millis(staleSecs) + 1;
      var after := ClaimAll(Reclaim(rows, t1, staleSecs, None), [k], t1);
      && OldestEligible(Reclaim(rows, t1, staleSecs, None), [k], t1, olderSecs, 1, None)
      && OldestEligible(Reclaim(after, t2, staleSecs, None), [k], t2, olderSecs, 1, None)
  {
    var t2 := t1 + Millis(staleSecs) + 1;
    var ready := Reclaim(rows, t1, staleSecs, None);
    var after := ClaimAll(ready, [k], t1);
    assert ready == rows && after == rows[k := ClaimRow(rows[k], t1)];
    var again := Reclaim(after, t2, staleSecs, None);
    assert again == rows[k := Requeue(after[k], t2, REASON_LEASE)];
    assert Eligible(again[k], t2, olderSecs, None);
  }

  // ---------- Creating by idempotency key ----------

  /** Creating keeps keys unique, changes no row, and a repeat finds the row of the first call. */
  lemma CreateIsIdempotent(rows: seq<Row>, p: Params, q: Params, t1: int, t2: int)
    requires DistinctKeys(rows) && SameKey(p, q)
    ensures var once := CreateOrGet(rows, p, t1);
      && DistinctKeys(once) && rows <= once && |once| <= |rows| + 1
      && CreateOrGet(once, q, t2) == once
      && Find(once, q) == Find(rows, p) < |once|
  {
    var once := CreateOrGet(rows, p, t1);
    var i := Find(rows, p);
    assert SameKey(once[i].p, q);
    assert forall j :: 0 <= j < i ==> once[j] == rows[j];
  }

}
