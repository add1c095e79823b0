/**
The transactions table of accounts-service, used as an outbox of ledger posts.

A row is known by its position in the table, which stands for its UUID. Instants and lengths of
time are in milliseconds. Each function is one SQL statement; the class performs them in place.
*/
module Outbox {
  import opened Options

  datatype Kind = Deposit | Withdraw | Transfer

  datatype Status = Pending | Posting | Posted | Failed

  /** What the caller asked for; no statement ever changes it. */
  datatype Params = Params(
    org: string, env: string, from: string, to: string,
    amount: int, currency: string, kind: Kind, idem: string)

  datatype Row = Row(
    p: Params, status: Status, reason: Option<string>, retryCount: nat,
    lastAttemptedAt: Option<int>, nextRetryAt: Option<int>, terminalFailureAt: Option<int>,
    createdAt: int, updatedAt: int)

  const SECOND := 1000

  const REASON_STALE := "reconciler: posting stale; requeued"
  const REASON_AGE := "reconciler: pending age exceeded"
  const REASON_LEASE := "posting lease expired; reclaimed for retry"

  function Millis(secs: int): int {
    (if secs < 1 then 1 else secs) * SECOND
  }

  predicate InEnv(r: Row, env: Option<string>) {
    env.None? || r.p.env == env.value
  }

  predicate Stale(r: Row, now: int, staleSecs: int) {
    r.status == Posting && r.updatedAt < now - Millis(staleSecs)
  }

  predicate OverAge(r: Row, now: int, pendingSecs: int) {
    r.status == Pending && r.createdAt < now - Millis(pendingSecs) && r.retryCount >= 1
  }

  predicate Eligible(r: Row, now: int, olderSecs: int, env: Option<string>) {
    && r.status == Pending
    && r.createdAt < now - Millis(olderSecs)
    && (r.nextRetryAt.None? || r.nextRetryAt.value <= now)
    && InEnv(r, env)
  }

  predicate SameKey(p: Params, q: Params) {
    p.org == q.org && p.env == q.env && p.idem == q.idem
  }

  /** The unique index on organisation, environment and idempotency key. */
  predicate DistinctKeys(rows: seq<Row>) {
    forall i, j :: 0 <= i < j < |rows| ==> !SameKey(rows[i].p, rows[j].p)
  }

  // ---------- Statements ----------

  /** The position of the row with the key of `p`, or the length of the table. */
  function Find(rows: seq<Row>, p: Params): (i: nat)
    ensures i <= |rows|
    ensures i < |rows| ==> SameKey(rows[i].p, p)
    ensures forall j :: 0 <= j < i ==> !SameKey(rows[j].p, p)
  {
    if rows == [] then 0
    else if SameKey(rows[0].p, p) then 0
    else
      var i := 1 + Find(rows[1..], p);
      assert forall j :: 1 <= j < i ==> rows[j] == rows[1..][j - 1];
      i
  }

  function FreshRow(p: Params, now: int): Row {
    Row(p, Pending, None, 0, None, None, None, now, now)
  }

  function CreateOrGet(rows: seq<Row>, p: Params, now: int): seq<Row> {
    if Find(rows, p) < |rows| then rows else rows + [FreshRow(p, now)]
  }

  function Requeue(r: Row, now: int, reason: string): Row {
    r.(status := Pending, reason := Some(reason), updatedAt := now)
  }

  function Reclaim(rows: seq<Row>, now: int, staleSecs: int, env: Option<string>): (r: seq<Row>)
    ensures |r| == |rows|
  {
    seq(|rows|, i requires 0 <= i < |rows| =>
      if Stale(rows[i], now, staleSecs) && InEnv(rows[i], env) then Requeue(rows[i], now, REASON_LEASE)
      else rows[i])
  }

  function SweepRequeue(rows: seq<Row>, now: int, staleSecs: int): (r: seq<Row>)
    ensures |r| == |rows|
  {
    seq(|rows|, i requires 0 <= i < |rows| =>
      if Stale(rows[i], now, staleSecs) then Requeue(rows[i], now, REASON_STALE) else rows[i])
  }

  function GiveUp(r: Row, now: int, reason: string): Row {
    r.(status := Failed, reason := Some(reason), nextRetryAt := None,
       terminalFailureAt := Some(now), updatedAt := now)
  }

  function SweepFail(rows: seq<Row>, now: int, pendingSecs: int): (r: seq<Row>)
    ensures |r| == |rows|
  {
    seq(|rows|, i requires 0 <= i < |rows| =>
      if OverAge(rows[i], now, pendingSecs) then
        GiveUp(rows[i], now, if rows[i].reason.Some? then rows[i].reason.value else REASON_AGE)
      else rows[i])
  }

  function TryClaim(rows: seq<Row>, id: nat, now: int): seq<Row> {
    if id < |rows| && rows[id].status == Pending then
      rows[id := rows[id].(status := Posting, reason := None, updatedAt := now)]
    else rows
  }

  function ClaimRow(r: Row, now: int): Row {
    r.(status := Posting, reason := None, retryCount := r.retryCount + 1,
       lastAttemptedAt := Some(now), updatedAt := now)
  }

  function ClaimAll(rows: seq<Row>, ids: seq<nat>, now: int): (r: seq<Row>)
    ensures |r| == |rows|
  {
    seq(|rows|, i requires 0 <= i < |rows| => if i in ids then ClaimRow(rows[i], now) else rows[i])
  }

  /** What `ORDER BY created_at LIMIT n` over the eligible rows may select. */
  predicate OldestEligible(
    rows: seq<Row>, ids: seq<nat>, now: int, olderSecs: int, limit: nat, env: Option<string>)
  {
    && (forall i :: 0 <= i < |ids| ==> ids[i] < |rows| && Eligible(rows[ids[i]], now, olderSecs, env))
    && (forall i, j :: 0 <= i < j < |ids| ==> ids[i] != ids[j])
    && |ids| <= limit
    && (forall k :: 0 <= k < |rows| && k !in ids && Eligible(rows[k], now, olderSecs, env) ==>
         |ids| == limit && forall i :: 0 <= i < |ids| ==> rows[ids[i]].createdAt <= rows[k].createdAt)
  }

  function UpdateStatus(rows: seq<Row>, id: nat, status: Status, reason: Option<string>, now: int): seq<Row> {
    if id < |rows| then rows[id := rows[id].(status := status, reason := reason, updatedAt := now)]
    else rows
  }

  function ScheduleRetry(rows: seq<Row>, id: nat, reason: string, nextRetryAt: int, now: int): seq<Row> {
    if id < |rows| then
      rows[id := rows[id].(status := Pending, reason := Some(reason), nextRetryAt := Some(nextRetryAt),
                           terminalFailureAt := None, updatedAt := now)]
    else rows
  }

  function MarkTerminalFailure(rows: seq<Row>, id: nat, reason: string, now: int): seq<Row> {
    if id < |rows| then rows[id := GiveUp(rows[id], now, reason)] else rows
  }

  // ---------- What a statement leaves, spelt out ----------

  /** What only a claim or an insert sets. */
  predicate SameOtherwise(before: Row, after: Row) {
    && after.p == before.p && after.retryCount == before.retryCount && after.createdAt == before.createdAt
    && after.lastAttemptedAt == before.lastAttemptedAt
  }

  predicate OthersSame(before: seq<Row>, after: seq<Row>, id: nat) {
    |after| == |before| && forall k :: 0 <= k < |before| && k != id ==> after[k] == before[k]
  }

  /** Posting for longer than the lease, in whole seconds but at least one, and of the environment if one is given. */
  predicate LeaseOver(r: Row, now: int, staleSecs: int, env: Option<string>) {
    && r.status == Posting && now - r.updatedAt > 1000 && now - r.updatedAt > 1000 * staleSecs
    && (env.Some? ==> r.p.env == env.value)
  }

  /** Such a row is pending again, from now, and keeps its count and its retry time; any other is untouched. */
  predicate Reclaimed(before: Row, after: Row, now: int, staleSecs: int, env: Option<string>) {
    if LeaseOver(before, now, staleSecs, env) then
      && after.status == Pending && after.updatedAt == now && after.reason == Some(REASON_LEASE)
      && SameOtherwise(before, after) && after.nextRetryAt == before.nextRetryAt
      && after.terminalFailureAt == before.terminalFailureAt
    else after == before
  }

  predicate Claimed(before: Row, after: Row, now: int) {
    && before.status == Pending && after.status == Posting && after.reason.None?
    && after.retryCount == before.retryCount + 1 && after.lastAttemptedAt == Some(now) && after.updatedAt == now
    && after.p == before.p && after.createdAt == before.createdAt && after.nextRetryAt == before.nextRetryAt
    && after.terminalFailureAt == before.terminalFailureAt
  }

  /** The rows a statement changed. */
  function Changed(before: seq<Row>, after: seq<Row>): set<nat>
    requires |before| == |after|
  {
    set i: nat | i < |before| && before[i] != after[i]
  }

  // ---------- The table, updated in place ----------

  class TransactionTable {
    var rows: seq<Row>

    constructor ()
      ensures rows == []
    {
      rows := [];
    }

    method CreateOrGetByIdempotency(p: Params, now: int) returns (id: nat)
      modifies this
      ensures rows == CreateOrGet(old(rows), p, now)
      ensures id < |rows| && SameKey(rows[id].p, p) && id == Find(old(rows), p)
      ensures id < |old(rows)| ==> rows == old(rows)
      ensures id == |old(rows)| ==>
        var r := rows[id];
        && rows[..id] == old(rows) && |rows| == id + 1 && r.p == p && r.status == Pending && r.reason.None?
        && r.retryCount == 0 && r.lastAttemptedAt.None? && r.nextRetryAt.None? && r.terminalFailureAt.None?
        && r.createdAt == r.updatedAt == now
    {
      id := Find(rows, p);
      if id == |rows| {
        rows := rows + [FreshRow(p, now)];
      }
    }

    /** The claimed row, if this call is the one that took it from pending to posting. */
    method TryClaimPendingForPost(id: nat, now: int) returns (claimed: Option<Row>)
      modifies this
      ensures rows == TryClaim(old(rows), id, now)
      ensures claimed.Some? <==> id < |old(rows)| && old(rows)[id].status == Pending
      ensures claimed.Some? ==> claimed.value == rows[id]
      ensures claimed.None? ==> rows == old(rows)
      ensures claimed.Some? ==>
        && rows[id].status == Posting && rows[id].reason.None? && rows[id].updatedAt == now
        && SameOtherwise(old(rows)[id], rows[id]) && rows[id].terminalFailureAt == old(rows)[id].terminalFailureAt
        && rows[id].nextRetryAt == old(rows)[id].nextRetryAt && OthersSame(old(rows), rows, id)
    {
      if id < |rows| && rows[id].status == Pending {
        rows := rows[id := rows[id].(status := Posting, reason := None, updatedAt := now)];
        claimed := Some(rows[id]);
      } else {
        claimed := None;
      }
    }

    method ReclaimStalePostingRows(now: int, staleSecs: int, env: Option<string>)
      modifies this
      ensures rows == Reclaim(old(rows), now, staleSecs, env)
      ensures forall i :: 0 <= i < |rows| ==> Reclaimed(old(rows)[i], rows[i], now, staleSecs, env)
    {
      var table := rows;
      if env.Some? {
        rows := seq(|table|, i requires 0 <= i < |table| =>
          var r := table[i];
          if Stale(r, now, staleSecs) && r.p.env == env.value then
            r.(status := Pending, reason := Some(REASON_LEASE), updatedAt := now) else r);
      } else {
        rows := seq(|table|, i requires 0 <= i < |table| =>
          var r := table[i];
          if Stale(r, now, staleSecs) then
            r.(status := Pending, reason := Some(REASON_LEASE), updatedAt := now) else r);
      }
    }

    /** Reclaims, then claims the `limit` oldest eligible rows. */
    method ClaimPendingForLedgerPost(now: int, olderSecs: int, staleSecs: int, limit: Option<nat>, env: Option<string>)
      returns (ids: seq<nat>)
      modifies this
      ensures var before := Reclaim(old(rows), now, staleSecs, env);
        && OldestEligible(before, ids, now, olderSecs, if limit.Some? then limit.value else 100, env)
        && rows == ClaimAll(before, ids, now)
        && forall i :: 0 <= i < |rows| ==> if i in ids then Claimed(before[i], rows[i], now) else rows[i] == before[i]
    {
      ReclaimStalePostingRows(now, staleSecs, env);
      var most := if limit.Some? then limit.value else 100;
      ids := [];
      while |ids| < most
        invariant OldestEligible(rows, ids, now, olderSecs, |ids|, env)
        invariant |ids| <= most
        invariant rows == Reclaim(old(rows), now, staleSecs, env)
      {
        var best := OldestLeft(ids, now, olderSecs, env);
        if best == |rows| { break; }
        ids := ids + [best];
      }
      rows := ClaimAll(rows, ids, now);
    }

    /** The oldest eligible row outside `ids`, or the length of the table. */
    method OldestLeft(ids: seq<nat>, now: int, olderSecs: int, env: Option<string>) returns (best: nat)
      ensures best <= |rows|
      ensures best < |rows| ==> best !in ids && Eligible(rows[best], now, olderSecs, env)
      ensures forall k :: 0 <= k < |rows| && k !in ids && Eligible(rows[k], now, olderSecs, env) ==>
        best < |rows| && rows[best].createdAt <= rows[k].createdAt
    {
      best := |rows|;
      for i := 0 to |rows|
        invariant best == |rows| || best < i
        invariant best < |rows| ==> best !in ids && Eligible(rows[best], now, olderSecs, env)
        invariant forall k :: 0 <= k < i && k !in ids && Eligible(rows[k], now, olderSecs, env) ==>
          best < |rows| && rows[best].createdAt <= rows[k].createdAt
      {
        if i !in ids && Eligible(rows[i], now, olderSecs, env) {
          if best == |rows| || rows[i].createdAt < rows[best].createdAt { best := i; }
        }
      }
    }

    method SetStatus(id: nat, status: Status, reason: Option<string>, now: int) returns (found: bool)
      modifies this
      ensures found <==> id < |old(rows)|
      ensures rows == UpdateStatus(old(rows), id, status, reason, now)
      ensures !found ==> rows == old(rows)
      ensures found ==>
        && OthersSame(old(rows), rows, id) && SameOtherwise(old(rows)[id], rows[id])
        && rows[id].status == status && rows[id].reason == reason && rows[id].updatedAt == now
        && rows[id].nextRetryAt == old(rows)[id].nextRetryAt
        && rows[id].terminalFailureAt == old(rows)[id].terminalFailureAt
    {
      found := id < |rows|;
      if found {
        rows := rows[id := rows[id].(status := status, reason := reason, updatedAt := now)];
      }
    }

    method SetRetry(id: nat, reason: string, nextRetryAt: int, now: int) returns (found: bool)
      modifies this
      ensures found <==> id < |old(rows)|
      ensures rows == ScheduleRetry(old(rows), id, reason, nextRetryAt, now)
      ensures !found ==> rows == old(rows)
      ensures found ==>
        && OthersSame(old(rows), rows, id) && SameOtherwise(old(rows)[id], rows[id])
        && rows[id].status == Pending && rows[id].reason == Some(reason) && rows[id].updatedAt == now
        && rows[id].nextRetryAt == Some(nextRetryAt) && rows[id].terminalFailureAt.None?
    {
      found := id < |rows|;
      if found {
        rows := rows[id := rows[id].(status := Pending, reason := Some(reason), nextRetryAt := Some(nextRetryAt),
                                     terminalFailureAt := None, updatedAt := now)];
      }
    }

    method SetTerminalFailure(id: nat, reason: string, now: int) returns (found: bool)
      modifies this
      ensures found <==> id < |old(rows)|
      ensures rows == MarkTerminalFailure(old(rows), id, reason, now)
      ensures !found ==> rows == old(rows)
      ensures found ==>
        && OthersSame(old(rows), rows, id) && SameOtherwise(old(rows)[id], rows[id])
        && rows[id].status == Failed && rows[id].reason == Some(reason) && rows[id].updatedAt == now
        && rows[id].nextRetryAt.None? && rows[id].terminalFailureAt == Some(now)
    {
      found := id < |rows|;
      if found {
        rows := rows[id := rows[id].(status := Failed, reason := Some(reason), nextRetryAt := None,
                                     terminalFailureAt := Some(now), updatedAt := now)];
      }
    }

    /** First statement of the sweep; it returns the number of rows affected. */
    method RequeueStaleRows(now: int, staleSecs: int) returns (affected: nat)
      modifies this
      ensures rows == SweepRequeue(old(rows), now, staleSecs)
      ensures affected == |Changed(old(rows), rows)|
    {
      var table := rows;
      var stale := set i: nat | i < |table| && Stale(table[i], now, staleSecs);
      rows := seq(|table|, i requires 0 <= i < |table| =>
        var r := table[i];
        if i in stale then r.(status := Pending, reason := Some(REASON_STALE), updatedAt := now) else r);
      affected := |stale|;
      assert stale == Changed(table, rows);
    }

    /** Second statement of the sweep. */
    method FailAgedRows(now: int, pendingSecs: int) returns (affected: nat)
      modifies this
      ensures rows == SweepFail(old(rows), now, pendingSecs)
      ensures affected == |Changed(old(rows), rows)|
    {
      var table := rows;
      var aged := set i: nat | i < |table| && OverAge(table[i], now, pendingSecs);
      rows := seq(|table|, i requires 0 <= i < |table| =>
        var r := table[i];
        if i in aged then
          r.(status := Failed, reason := if r.reason.Some? then r.reason else Some(REASON_AGE),
             nextRetryAt := None, terminalFailureAt := Some(now), updatedAt := now)
        else r);
      affected := |aged|;
      assert aged == Changed(table, rows);
    }

    /**
    The reconciler's sweep: it returns how many rows each of its two statements changed. Afterwards
    nothing is stale or over age, and no posted or failed row was touched.
    */
    method ReconcileStaleTransactions(now: int, staleSecs: int, pendingSecs: int)
      returns (requeued: nat, failed: nat)
      modifies this
      ensures var mid := SweepRequeue(old(rows), now, staleSecs);
        && rows == SweepFail(mid, now, pendingSecs)
        && requeued == |Changed(old(rows), mid)| && failed == |Changed(mid, rows)|
      ensures forall i :: 0 <= i < |rows| ==>
        && !Stale(rows[i], now, staleSecs) && !OverAge(rows[i], now, pendingSecs)
        && (old(rows)[i].status in {Posted, Failed} ==> rows[i] == old(rows)[i])
    {
      requeued := RequeueStaleRows(now, staleSecs);
      failed := FailAgedRows(now, pendingSecs);
    }
  }

}
