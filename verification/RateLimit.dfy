/** The fixed-window rate limiter, and what it allows over any stretch of time. */
module RateLimit {
  import opened Options

  datatype Config = Config(window: nat, max: nat)

  datatype Window = Window(start: int, count: nat)

  datatype Request = Request(client: string, at: int)

  /** One request of one client: its window afterwards, and whether it is allowed. */
  function Admit(cfg: Config, w: Option<Window>, now: int): (Window, bool) {
    var entry := if w.Some? then w.value else Window(now, 0);
    var current := if now - entry.start > cfg.window then Window(now, 0) else entry;
    if current.count >= cfg.max then (current, false) else (current.(count := current.count + 1), true)
  }

  function Get(store: map<string, Window>, client: string): Option<Window> {
    if client in store then Some(store[client]) else None
  }

  class RateLimiter {
    var store: map<string, Window>
    const config: Config

    constructor (config: Config)
      ensures this.config == config && store == map[]
    {
      this.config := config;
      store := map[];
    }

    method Allow(client: string, now: int) returns (ok: bool)
      modifies this
      ensures var (w, verdict) := Admit(config, Get(old(store), client), now);
        store == old(store)[client := w] && ok == verdict
    {
      if client !in store { store := store[client := Window(now, 0)]; }
      var entry := store[client];
      if now - entry.start > config.window { entry := Window(now, 0); }
      store := store[client := entry];
      if entry.count >= config.max { return false; }
      store := store[client := entry.(count := entry.count + 1)];
      ok := true;
    }

    method Reset()
      modifies this
      ensures store == map[]
    {
      store := map[];
    }
  }

  // ---------- Traces ----------

  /** How many requests of `client` a trace allows in the interval from `lo` to `hi`. */
  function AllowedFor(
    cfg: Config, store: map<string, Window>, trace: seq<Request>, client: string, lo: int, hi: int): nat
    decreases |trace|
  {
    if trace == [] then 0
    else
      var r := trace[0];
      var (w, ok) := Admit(cfg, Get(store, r.client), r.at);
      (if ok && r.client == client && lo <= r.at <= hi then 1 else 0)
        + AllowedFor(cfg, store[r.client := w], trace[1..], client, lo, hi)
  }

  function TimesOf(trace: seq<Request>, client: string): seq<int> {
    if trace == [] then []
    else (if trace[0].client == client then [trace[0].at] else []) + TimesOf(trace[1..], client)
  }

  /** The same count for one client on its own. */
  function Allowed(cfg: Config, w: Option<Window>, times: seq<int>, lo: int, hi: int): nat
    decreases |times|
  {
    if times == [] then 0
    else
      var (next, ok) := Admit(cfg, w, times[0]);
      (if ok && lo <= times[0] <= hi then 1 else 0) + Allowed(cfg, Some(next), times[1..], lo, hi)
  }

  /** A client's verdicts depend on its own requests only. */
  lemma {:induction false} ClientsAreIndependent(
    cfg: Config, store: map<string, Window>, trace: seq<Request>, client: string, lo: int, hi: int)
    ensures AllowedFor(cfg, store, trace, client, lo, hi)
         == Allowed(cfg, Get(store, client), TimesOf(trace, client), lo, hi)
    decreases |trace|
  {
    if trace != [] {
      var r := trace[0];
      var (w, ok) := Admit(cfg, Get(store, r.client), r.at);
      ClientsAreIndependent(cfg, store[r.client := w], trace[1..], client, lo, hi);
      if r.client == client {
        assert TimesOf(trace, client) == [r.at] + TimesOf(trace[1..], client);
        assert ([r.at] + TimesOf(trace[1..], client))[1..] == TimesOf(trace[1..], client);
      } else {
        assert TimesOf(trace, client) == TimesOf(trace[1..], client);
      }
    }
  }

  predicate Ascending(times: seq<int>) {
    forall i, j :: 0 <= i < j < |times| ==> times[i] <= times[j]
  }

  /** What an open window and its successors can still allow in an interval no longer than the window. */
  function Bound(cfg: Config, w: Window, lo: int, hi: int): int {
    if hi < w.start then 0
    else if hi <= w.start + cfg.window then cfg.max - w.count
    else if lo <= w.start + cfg.window then 2 * cfg.max - w.count
    else 2 * cfg.max - 1
  }

  lemma {:induction false} WithinBound(cfg: Config, w: Window, times: seq<int>, lo: int, hi: int)
    requires 1 <= w.count <= cfg.max && lo <= hi <= lo + cfg.window
    requires Ascending(times) && (times != [] ==> w.start <= times[0])
    ensures Allowed(cfg, Some(w), times, lo, hi) <= Bound(cfg, w, lo, hi)
    decreases |times|
  {
    if times != [] {
      var next := Admit(cfg, Some(w), times[0]).0;
      WithinBound(cfg, next, times[1..], lo, hi);
    }
  }

  /**
  Any interval no longer than the window allows a client at most twice the maximum less one, and
  at most the maximum when it covers the client's first request.
  */
  lemma AtMostTwiceLessOne(cfg: Config, trace: seq<Request>, client: string, lo: int, hi: int)
    requires cfg.max >= 1 && lo <= hi <= lo + cfg.window
    requires Ascending(TimesOf(trace, client))
    ensures AllowedFor(cfg, map[], trace, client, lo, hi) <= 2 * cfg.max - 1
    ensures TimesOf(trace, client) != [] && lo <= TimesOf(trace, client)[0] ==>
      AllowedFor(cfg, map[], trace, client, lo, hi) <= cfg.max
  {
    ClientsAreIndependent(cfg, map[], trace, client, lo, hi);
    var times := TimesOf(trace, client);
    if times != [] {
      WithinBound(cfg, Window(times[0], 1), times[1..], lo, hi);
    }
  }

  /** Request `n` of a client opens a window: it is the first, or the last window is over. */
  predicate Opens(cfg: Config, w: Option<Window>, times: seq<int>, n: nat)
    requires n < |times|
    decreases n
  {
    if n == 0 then w.None? || times[0] - w.value.start > cfg.window
    else Opens(cfg, Some(Admit(cfg, w, times[0]).0), times[1..], n - 1)
  }

  /** A request that opens a window comes strictly later than every request before it. */
  lemma {:induction false} OpensLater(cfg: Config, w: Window, times: seq<int>, n: nat, t: int)
    requires n < |times| && Ascending(times) && Opens(cfg, Some(w), times, n)
    requires t <= times[0] && t - w.start <= cfg.window
    ensures t < times[n]
    decreases n
  {
    if n > 0 {
      OpensLater(cfg, Admit(cfg, Some(w), times[0]).0, times[1..], n - 1, times[0]);
    }
  }

  /** Every window the limiter opens lets at most the maximum through, from its first request on. */
  lemma {:induction false} AtMostMaxPerWindow(cfg: Config, w: Option<Window>, times: seq<int>, n: nat)
    requires n < |times| && Ascending(times) && Opens(cfg, w, times, n)
    ensures Allowed(cfg, w, times, times[n], times[n] + cfg.window) <= cfg.max
    decreases n
  {
    var next := Admit(cfg, w, times[0]).0;
    if cfg.max == 0 {
      NothingWithoutQuota(cfg, w, times, times[n], times[n] + cfg.window);
    } else if n > 0 {
      OpensLater(cfg, next, times[1..], n - 1, times[0]);
      AtMostMaxPerWindow(cfg, Some(next), times[1..], n - 1);
    } else {
      WithinBound(cfg, next, times[1..], times[0], times[0] + cfg.window);
    }
  }

  lemma {:induction false} NothingWithoutQuota(cfg: Config, w: Option<Window>, times: seq<int>, lo: int, hi: int)
    requires cfg.max == 0
    ensures Allowed(cfg, w, times, lo, hi) == 0
    decreases |times|
  {
    if times != [] {
      NothingWithoutQuota(cfg, Some(Admit(cfg, w, times[0]).0), times[1..], lo, hi);
    }
  }

  // ---------- The bound is reached ----------

  function Repeat(n: nat, t: int): seq<int> {
    if n == 0 then [] else [t] + Repeat(n - 1, t)
  }

  lemma {:induction false} Burst(cfg: Config, w: Window, t: int, n: nat, rest: seq<int>, lo: int, hi: int)
    requires t - w.start <= cfg.window && w.count + n <= cfg.max && lo <= t <= hi
    ensures Allowed(cfg, Some(w), Repeat(n, t) + rest, lo, hi)
         == n + Allowed(cfg, Some(w.(count := w.count + n)), rest, lo, hi)
    decreases n
  {
    if n == 0 {
      assert Repeat(0, t) + rest == rest;
    } else {
      assert (Repeat(n, t) + rest)[1..] == Repeat(n - 1, t) + rest;
      Burst(cfg, w.(count := w.count + 1), t, n - 1, rest, lo, hi);
    }
  }

  /** One early request, a burst at the end of its window, a burst just after: the bound exactly. */
  lemma BoundIsReached(cfg: Config)
    requires cfg.max >= 1 && cfg.window >= 1
    ensures var times := [0] + (Repeat(cfg.max - 1, cfg.window) + Repeat(cfg.max, cfg.window + 1));
      Allowed(cfg, None, times, cfg.window, cfg.window + 1) == 2 * cfg.max - 1
  {
    var late := Repeat(cfg.max, cfg.window + 1);
    var rest := Repeat(cfg.max - 1, cfg.window) + late;
    var lo, hi := cfg.window, cfg.window + 1;
    assert ([0] + rest)[1..] == rest;
    Burst(cfg, Window(0, 1), cfg.window, cfg.max - 1, late, lo, hi);
    assert late == [hi] + Repeat(cfg.max - 1, hi) && late[1..] == Repeat(cfg.max - 1, hi);
    assert Repeat(cfg.max - 1, hi) + [] == Repeat(cfg.max - 1, hi);
    Burst(cfg, Window(hi, 1), hi, cfg.max - 1, [], lo, hi);
  }

  // ---------- Every verdict ----------

  /** A client's window before its request `n`, in a limiter that knew nothing of it. */
  function WindowBefore(cfg: Config, times: seq<int>, n: nat): Option<Window>
    requires n <= |times|
  {
    if n == 0 then None else Some(Admit(cfg, WindowBefore(cfg, times, n - 1), times[n - 1]).0)
  }

  predicate Verdict(cfg: Config, times: seq<int>, n: nat)
    requires n < |times|
  {
    Admit(cfg, WindowBefore(cfg, times, n), times[n]).1
  }

  /** The request that opened the window request `n` falls into, read off the times alone. */
  function Opener(window: nat, times: seq<int>, n: nat): (o: nat)
    requires n < |times|
    ensures o <= n
  {
    if n == 0 then 0
    else
      var o := Opener(window, times, n - 1);
      if times[n] - times[o] > window then n else o
  }

  /** How many of the requests from `o` up to `n` were allowed. */
  function AllowedSince(cfg: Config, times: seq<int>, o: nat, n: nat): nat
    requires o <= n <= |times|
    decreases n - o
  {
    if o == n then 0 else AllowedSince(cfg, times, o, n - 1) + if Verdict(cfg, times, n - 1) then 1 else 0
  }

  lemma {:induction false} WindowIs(cfg: Config, times: seq<int>, n: nat)
    requires n < |times|
    ensures var o, w := Opener(cfg.window, times, n), WindowBefore(cfg, times, n + 1);
      w == Some(Window(times[o], AllowedSince(cfg, times, o, n + 1)))
    ensures Verdict(cfg, times, n) <==> AllowedSince(cfg, times, Opener(cfg.window, times, n), n) < cfg.max
  {
    if n > 0 {
      WindowIs(cfg, times, n - 1);
    }
  }

  /**
  Every verdict: a request is refused if and only if the maximum of the client's requests has been
  allowed since the one that opened its window, and a window is over when more than its length has passed.
  */
  lemma RefusedIff(cfg: Config, times: seq<int>, n: nat)
    requires n < |times|
    ensures var o := Opener(cfg.window, times, n);
      && (!Verdict(cfg, times, n) <==> AllowedSince(cfg, times, o, n) >= cfg.max)
      && times[n] - times[o] <= cfg.window
  {
    WindowIs(cfg, times, n);
  }

  /** The limiter's windows after a trace. */
  function StoreAfter(cfg: Config, trace: seq<Request>): map<string, Window> {
    if trace == [] then map[]
    else
      var n := |trace| - 1;
      var before := StoreAfter(cfg, trace[..n]);
      before[trace[n].client := Admit(cfg, Get(before, trace[n].client), trace[n].at).0]
  }

  lemma {:induction false} TimesSnoc(trace: seq<Request>, last: Request, client: string)
    ensures TimesOf(trace + [last], client)
         == if last.client == client then TimesOf(trace, client) + [last.at] else TimesOf(trace, client)
  {
    if trace == [] {
      assert trace + [last] == [last] && [last][1..] == [];
    } else {
      assert (trace + [last])[1..] == trace[1..] + [last];
      TimesSnoc(trace[1..], last, client);
    }
  }

  lemma {:induction false} WindowPrefix(cfg: Config, times: seq<int>, more: seq<int>, n: nat)
    requires n <= |times| && times <= more
    ensures WindowBefore(cfg, more, n) == WindowBefore(cfg, times, n)
  {
    if n > 0 { WindowPrefix(cfg, times, more, n - 1); }
  }

  /** Among any other clients' requests, a client's window is the one its own requests give. */
  lemma {:induction false} StoreIsWindows(cfg: Config, trace: seq<Request>, client: string)
    ensures Get(StoreAfter(cfg, trace), client)
         == WindowBefore(cfg, TimesOf(trace, client), |TimesOf(trace, client)|)
  {
    if trace != [] {
      var n := |trace| - 1;
      var front, times := trace[..n], TimesOf(trace[..n], client);
      StoreIsWindows(cfg, front, client);
      assert trace == front + [trace[n]];
      TimesSnoc(front, trace[n], client);
      if trace[n].client == client {
        WindowPrefix(cfg, times, times + [trace[n].at], |times|);
      }
    }
  }

}
