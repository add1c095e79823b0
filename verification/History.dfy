/** The `balance_after` values of the transaction listings, walked backwards from the current balance. */
module History {
  import opened Options
  import opened Outbox
  import opened Protocol
  import opened ExactlyOnce
  import opened CrossService
  import L = Ledger

  /** The change of an account's balance by one listed row; only posted rows count. */
  function Delta(tx: Row, ext: string): int {
    if tx.status != Posted then 0 else RawDelta(tx.p, ext)
  }

  /** The balance after a list of transactions that starts from nothing. */
  function Total(txs: seq<Row>, ext: string): int {
    if txs == [] then 0 else Delta(txs[0], ext) + Total(txs[1..], ext)
  }

  // ---------- One account ----------

  function AccountWalk(txs: seq<Row>, ext: string, current: int): (r: seq<int>)
    ensures |r| == |txs|
  {
    if txs == [] then [] else [current] + AccountWalk(txs[1..], ext, current - Delta(txs[0], ext))
  }

  method ListAccountTransactions(txs: seq<Row>, ext: string, current: int) returns (after: seq<int>)
    ensures after == AccountWalk(txs, ext, current)
  {
    after := [];
    var running := current;
    for i := 0 to |txs|
      invariant AccountWalk(txs, ext, current) == after + AccountWalk(txs[i..], ext, running)
    {
      after := after + [running];
      running := running - Delta(txs[i], ext);
      assert txs[i..][1..] == txs[i + 1..];
    }
    assert txs[|txs|..] == [];
  }

  lemma {:induction false} TotalConcat(a: seq<Row>, b: seq<Row>, ext: string)
    ensures Total(a + b, ext) == Total(a, ext) + Total(b, ext)
  {
    if a == [] {
      assert a + b == b;
    } else {
      assert (a + b)[1..] == a[1..] + b;
      TotalConcat(a[1..], b, ext);
    }
  }

  /** Position `i` of the walk: the start less everything newer than transaction `i`. */
  lemma {:induction false} WalkAt(txs: seq<Row>, ext: string, current: int, i: nat)
    requires i < |txs|
    ensures AccountWalk(txs, ext, current)[i] == current - Total(txs[..i], ext)
  {
    if i > 0 {
      WalkAt(txs[1..], ext, current - Delta(txs[0], ext), i - 1);
      assert txs[..i][1..] == txs[1..][..i - 1];
    }
  }

  /**
  A listing that starts `skip` transactions into a newest-first history and shows `n` of them: each
  value is the balance after that transaction and all older ones, off by what was skipped and by
  what the start was off. On the newest page with the right start it is exact.
  */
  lemma WalkReconstructs(hist: seq<Row>, skip: nat, n: nat, ext: string, current: int, i: nat)
    requires skip + n <= |hist| && i < n
    ensures AccountWalk(hist[skip..skip + n], ext, current)[i]
         == Total(hist[skip + i..], ext) + Total(hist[..skip], ext) + (current - Total(hist, ext))
  {
    var page := hist[skip..skip + n];
    WalkAt(page, ext, current, i);
    assert hist == hist[..skip] + page[..i] + hist[skip + i..];
    TotalConcat(hist[..skip] + page[..i], hist[skip + i..], ext);
    TotalConcat(hist[..skip], page[..i], ext);
  }

  // ---------- The listing of a reachable state ----------

  /** The rows of an account, newest first. */
  function Listing(rows: seq<Row>, a: L.AccountKey): seq<Row> {
    if rows == [] then []
    else
      var n := |rows| - 1;
      (if Touches(rows[n].p, a) then [rows[n]] else []) + Listing(rows[..n], a)
  }

  /** The effect of the rows that have landed but are not marked posted. */
  function Unconfirmed(rows: seq<Row>, l: L.Ledger, a: L.AccountKey): int {
    if rows == [] then 0
    else
      var n := |rows| - 1;
      Unconfirmed(rows[..n], l, a)
        + if Landed(l, rows[n].p) && rows[n].status != Posted then Share(rows[n].p, a) else 0
  }

  lemma {:induction false} ListingTotal(rows: seq<Row>, l: L.Ledger, a: L.AccountKey)
    requires forall i :: 0 <= i < |rows| && rows[i].status == Posted ==> Landed(l, rows[i].p)
    ensures Total(Listing(rows, a), a.ext) + Unconfirmed(rows, l, a) == SumLanded(rows, l, a)
  {
    if rows != [] {
      var n := |rows| - 1;
      ListingTotal(rows[..n], l, a);
      if Touches(rows[n].p, a) {
        assert Listing(rows, a)[1..] == Listing(rows[..n], a);
      } else {
        assert Listing(rows, a) == Listing(rows[..n], a);
      }
    }
  }

  /**
  In every reachable state the listing of a customer account, started from the ledger's balance,
  shows for each transaction the balance its posted history gives, plus the unconfirmed effect. So
  the listing is exact if and only if the unconfirmed effect is zero.
  */
  lemma ListedBalances(
    cfg: Config, hyp: set<Hypothesis>, t0: int, steps: seq<Step>, a: L.AccountKey, n: nat, i: nat)
    requires Honest in hyp && Legal(cfg, hyp, Init(t0), steps) && !L.IsSystem(a.ext)
    requires i < n <= |Listing(Run(cfg, hyp, Init(t0), steps).rows, a)|
    ensures var s := Run(cfg, hyp, Init(t0), steps); var hist := Listing(s.rows, a);
      && AccountWalk(hist[..n], a.ext, CustomerView(s.ledger, a))[i]
           == Total(hist[i..], a.ext) + Unconfirmed(s.rows, s.ledger, a)
      && (Unconfirmed(s.rows, s.ledger, a) == 0 <==>
           AccountWalk(hist[..n], a.ext, CustomerView(s.ledger, a))[i] == Total(hist[i..], a.ext))
  {
    var s := Run(cfg, hyp, Init(t0), steps);
    ListingStarts(cfg, hyp, t0, steps, a);
    NewestPage(Listing(s.rows, a), n, a.ext, CustomerView(s.ledger, a), i);
  }

  /** What the ledger shows is the listed history and the unconfirmed effect. */
  lemma ListingStarts(cfg: Config, hyp: set<Hypothesis>, t0: int, steps: seq<Step>, a: L.AccountKey)
    requires Honest in hyp && Legal(cfg, hyp, Init(t0), steps) && !L.IsSystem(a.ext)
    ensures var s := Run(cfg, hyp, Init(t0), steps);
      CustomerView(s.ledger, a) == Total(Listing(s.rows, a), a.ext) + Unconfirmed(s.rows, s.ledger, a)
  {
    var s := Run(cfg, hyp, Init(t0), steps);
    PostedHaveLanded(cfg, hyp, t0, steps);
    CrossServiceAgreement(cfg, hyp, t0, steps, a);
    ListingTotal(s.rows, s.ledger, a);
  }

  lemma PostedHaveLanded(cfg: Config, hyp: set<Hypothesis>, t0: int, steps: seq<Step>)
    requires Honest in hyp && Legal(cfg, hyp, Init(t0), steps)
    ensures var s := Run(cfg, hyp, Init(t0), steps);
      forall i :: 0 <= i < |s.rows| && s.rows[i].status == Posted ==> Landed(s.ledger, s.rows[i].p)
  {
    InvHolds(cfg, hyp, Init(t0), steps);
  }

  lemma NewestPage(hist: seq<Row>, n: nat, ext: string, current: int, i: nat)
    requires i < n <= |hist|
    ensures AccountWalk(hist[..n], ext, current)[i] == Total(hist[i..], ext) + (current - Total(hist, ext))
  {
    WalkReconstructs(hist, 0, n, ext, current, i);
    assert hist[0..0 + n] == hist[..n] && hist[..0] == [];
  }

  // ---------- A whole organisation in one pass ----------

  type Cache = map<string, int>

  function Lookup(cache: Cache, ext: string): int {
    if ext in cache then cache[ext] else 0
  }

  /** The cache after one row, and the pair of balances shown for it. */
  function PassRow(tx: Row, cache: Cache): (Cache, (int, Option<int>)) {
    var from := Lookup(cache, tx.p.from);
    var to := if tx.p.kind == Transfer then Some(Lookup(cache, tx.p.to)) else None;
    var c1 := cache[tx.p.from := from - Delta(tx, tx.p.from)];
    var c2 :=
      if tx.p.kind == Transfer then c1[tx.p.to := Lookup(c1, tx.p.to) - Delta(tx, tx.p.to)] else c1;
    (c2, (from, to))
  }

  function OrgWalk(txs: seq<Row>, cache: Cache): (r: seq<(int, Option<int>)>)
    ensures |r| == |txs|
  {
    if txs == [] then []
    else
      var (next, pair) := PassRow(txs[0], cache);
      [pair] + OrgWalk(txs[1..], next)
  }

  function PagePairs(txs: seq<Row>): set<(string, string)> {
    (set tx | tx in txs :: (tx.p.from, tx.p.currency))
    + (set tx | tx in txs && tx.p.kind == Transfer :: (tx.p.to, tx.p.currency))
  }

  /** Every account of the page has an entry, fetched in a currency the page uses for it. */
  predicate Fetched(pairs: set<(string, string)>, cache: Cache, balance: (string, string) -> int) {
    && (forall x :: x in pairs ==> x.0 in cache)
    && (forall a :: a in cache ==> exists x :: x in pairs && x.0 == a && cache[a] == balance(x.0, x.1))
  }

  /** The organisation's listing; `balance` is what the ledger answers for an account, 0 on failure. */
  method ListTransactions(txs: seq<Row>, balance: (string, string) -> int)
    returns (start: Cache, pairs: seq<(int, Option<int>)>)
    ensures Fetched(PagePairs(txs), start, balance)
    ensures pairs == OrgWalk(txs, start)
  {
    var unique := UniqueAccounts(txs);
    start := FetchBalances(unique, balance);
    pairs := WalkPage(txs, start);
  }

  method UniqueAccounts(txs: seq<Row>) returns (unique: set<(string, string)>)
    ensures unique == PagePairs(txs)
  {
    unique := {};
    for i := 0 to |txs|
      invariant unique == PagePairs(txs[..i])
    {
      unique := unique + {(txs[i].p.from, txs[i].p.currency)};
      if txs[i].p.kind == Transfer { unique := unique + {(txs[i].p.to, txs[i].p.currency)}; }
      assert txs[..i + 1] == txs[..i] + [txs[i]];
    }
    assert txs[..|txs|] == txs;
  }

  method FetchBalances(unique: set<(string, string)>, balance: (string, string) -> int) returns (cache: Cache)
    ensures Fetched(unique, cache, balance)
  {
    cache := map[];
    var todo := unique;
    while todo != {}
      invariant todo <= unique && Fetched(unique - todo, cache, balance)
    {
      var x :| x in todo;
      FetchedMore(unique - todo, unique - (todo - {x}), cache, balance, x);
      if x.0 !in cache { cache := cache[x.0 := balance(x.0, x.1)]; }
      todo := todo - {x};
    }
    assert unique - {} == unique;
  }

  lemma FetchedMore(
    done: set<(string, string)>, more: set<(string, string)>, cache: Cache, balance: (string, string) -> int, x: (string, string))
    requires Fetched(done, cache, balance) && more == done + {x}
    ensures Fetched(more, if x.0 in cache then cache else cache[x.0 := balance(x.0, x.1)], balance)
  {
    var next := if x.0 in cache then cache else cache[x.0 := balance(x.0, x.1)];
    forall a | a in next ensures exists y :: y in more && y.0 == a && next[a] == balance(y.0, y.1) {
      if a in cache {
        var y :| y in done && y.0 == a && cache[a] == balance(y.0, y.1);
        assert y in more;
      } else {
        assert x in more;
      }
    }
  }

  lemma OrgWalkNext(txs: seq<Row>, i: nat, cache: Cache)
    requires i < |txs|
    ensures OrgWalk(txs[i..], cache)
         == [PassRow(txs[i], cache).1] + OrgWalk(txs[i + 1..], PassRow(txs[i], cache).0)
  {
    assert txs[i..][1..] == txs[i + 1..];
  }

  method WalkPage(txs: seq<Row>, start: Cache) returns (pairs: seq<(int, Option<int>)>)
    ensures pairs == OrgWalk(txs, start)
  {
    var cache := start;
    pairs := [];
    for i := 0 to |txs|
      invariant OrgWalk(txs, start) == pairs + OrgWalk(txs[i..], cache)
    {
      var tx := txs[i];
      OrgWalkNext(txs, i, cache);
      ghost var pass := PassRow(tx, cache);
      ghost var shown := pairs;
      var from := Lookup(cache, tx.p.from);
      var to: Option<int> := if tx.p.kind == Transfer then Some(Lookup(cache, tx.p.to)) else None;
      pairs := pairs + [(from, to)];
      cache := cache[tx.p.from := from - Delta(tx, tx.p.from)];
      if tx.p.kind == Transfer {
        cache := cache[tx.p.to := Lookup(cache, tx.p.to) - Delta(tx, tx.p.to)];
      }
      assert cache == pass.0 && pairs == shown + [pass.1];
      assert pairs + OrgWalk(txs[i + 1..], cache) == shown + ([pass.1] + OrgWalk(txs[i + 1..], cache));
    }
    assert txs[|txs|..] == [];
  }

  predicate Concerns(tx: Row, ext: string) {
    tx.p.from == ext || tx.p.to == ext
  }

  /** The rows of one account, in the order of the page. */
  function Only(txs: seq<Row>, ext: string): seq<Row> {
    if txs == [] then []
    else (if Concerns(txs[0], ext) then [txs[0]] else []) + Only(txs[1..], ext)
  }

  /** The values the page shows for one account. */
  function ShownFor(txs: seq<Row>, pairs: seq<(int, Option<int>)>, ext: string): seq<int>
    requires |pairs| == |txs|
  {
    if txs == [] then []
    else
      var shown :=
        if txs[0].p.from == ext then [pairs[0].0]
        else if txs[0].p.to == ext && pairs[0].1.Some? then [pairs[0].1.value]
        else [];
      shown + ShownFor(txs[1..], pairs[1..], ext)
  }

  /** As every stored row: one account unless it is a transfer, and no posted self-transfer. */
  predicate Regular(tx: Row) {
    && (tx.p.kind != Transfer ==> tx.p.from == tx.p.to)
    && (tx.status == Posted ==> DistinctEnds(tx.p))
  }

  predicate Hits(txs: seq<Row>, cache: Cache) {
    forall i :: 0 <= i < |txs| ==> txs[i].p.from in cache && txs[i].p.to in cache
  }

  /** The single pass shows each account exactly what that account's own listing would show. */
  lemma {:induction false} OrgWalkRefinesAccountWalk(txs: seq<Row>, cache: Cache, ext: string)
    requires ext in cache && Hits(txs, cache)
    requires forall i :: 0 <= i < |txs| ==> Regular(txs[i])
    ensures ShownFor(txs, OrgWalk(txs, cache), ext) == AccountWalk(Only(txs, ext), ext, cache[ext])
  {
    if txs != [] {
      var next := PassRow(txs[0], cache).0;
      RestHits(txs, cache, ext);
      OrgWalkRefinesAccountWalk(txs[1..], next, ext);
      RefinedNext(txs, cache, ext);
    }
  }

  lemma RestHits(txs: seq<Row>, cache: Cache, ext: string)
    requires txs != [] && ext in cache && Hits(txs, cache) && forall i :: 0 <= i < |txs| ==> Regular(txs[i])
    ensures var next := PassRow(txs[0], cache).0; ext in next && Hits(txs[1..], next)
    ensures forall i :: 0 <= i < |txs[1..]| ==> Regular(txs[1..][i])
  {
    assert Regular(txs[0]) && txs[0].p.from in cache && txs[0].p.to in cache;
    PassRowCache(txs[0], cache, ext);
    assert forall i :: 0 <= i < |txs[1..]| ==> txs[1..][i] == txs[i + 1];
  }

  lemma RefinedNext(txs: seq<Row>, cache: Cache, ext: string)
    requires txs != [] && ext in cache && Hits(txs, cache) && Regular(txs[0])
    requires ext in PassRow(txs[0], cache).0
    requires var (rest, next) := (txs[1..], PassRow(txs[0], cache).0);
      ShownFor(rest, OrgWalk(rest, next), ext) == AccountWalk(Only(rest, ext), ext, next[ext])
    ensures ShownFor(txs, OrgWalk(txs, cache), ext) == AccountWalk(Only(txs, ext), ext, cache[ext])
  {
    var tx, rest := txs[0], txs[1..];
    assert tx.p.from in cache && tx.p.to in cache;
    PassRowCache(tx, cache, ext);
    ShownNext(txs, cache, ext);
    if Concerns(tx, ext) { AccountWalkNext(tx, Only(rest, ext), ext, cache[ext]); }
  }

  lemma AccountWalkNext(tx: Row, rest: seq<Row>, ext: string, current: int)
    ensures AccountWalk([tx] + rest, ext, current) == [current] + AccountWalk(rest, ext, current - Delta(tx, ext))
  {
    assert ([tx] + rest)[1..] == rest;
  }

  lemma PassRowCache(tx: Row, cache: Cache, ext: string)
    requires Regular(tx) && ext in cache && tx.p.from in cache && tx.p.to in cache
    ensures var next := PassRow(tx, cache).0;
      && next.Keys == cache.Keys
      && next[ext] == if Concerns(tx, ext) then cache[ext] - Delta(tx, ext) else cache[ext]
  {
  }

  /** What the pass shows for one account, one row further. */
  lemma ShownNext(txs: seq<Row>, cache: Cache, ext: string)
    requires txs != [] && Regular(txs[0]) && ext in cache
    ensures var (tx, rest) := (txs[0], txs[1..]);
      var next := PassRow(tx, cache).0;
      && Only(txs, ext) == (if Concerns(tx, ext) then [tx] + Only(rest, ext) else Only(rest, ext))
      && ShownFor(txs, OrgWalk(txs, cache), ext)
           == if Concerns(tx, ext) then [cache[ext]] + ShownFor(rest, OrgWalk(rest, next), ext)
              else ShownFor(rest, OrgWalk(rest, next), ext)
  {
    var rest := txs[1..];
    var (next, pair) := PassRow(txs[0], cache);
    assert OrgWalk(txs, cache) == [pair] + OrgWalk(rest, next);
    assert ([pair] + OrgWalk(rest, next))[1..] == OrgWalk(rest, next);
  }

  /** On a fetched page every lookup of the pass hits. */
  lemma FetchedHits(txs: seq<Row>, cache: Cache, balance: (string, string) -> int)
    requires Fetched(PagePairs(txs), cache, balance)
    requires forall i :: 0 <= i < |txs| ==> Regular(txs[i])
    ensures Hits(txs, cache)
  {
    forall i | 0 <= i < |txs| ensures txs[i].p.from in cache && txs[i].p.to in cache {
      assert Regular(txs[i]) && txs[i] in txs;
      assert (txs[i].p.from, txs[i].p.currency) in PagePairs(txs);
      if txs[i].p.kind == Transfer { assert (txs[i].p.to, txs[i].p.currency) in PagePairs(txs); }
    }
  }

  /** Rows of a reachable state are regular: the ledger refuses self-transfers. */
  lemma RowsAreRegular(cfg: Config, hyp: set<Hypothesis>, t0: int, steps: seq<Step>)
    requires Honest in hyp && Legal(cfg, hyp, Init(t0), steps)
    ensures forall i :: 0 <= i < |Run(cfg, hyp, Init(t0), steps).rows| ==>
      Regular(Run(cfg, hyp, Init(t0), steps).rows[i])
  {
    InvHolds(cfg, hyp, Init(t0), steps);
    var s := Run(cfg, hyp, Init(t0), steps);
    forall i | 0 <= i < |s.rows| ensures Regular(s.rows[i]) {
      MatchedOnce(s, i);
    }
  }

  // ---------- The organisation's page in a reachable state ----------

  /** The rows of an organisation in one environment, newest first. */
  function OrgListing(rows: seq<Row>, org: string, env: string): seq<Row> {
    if rows == [] then []
    else
      var n := |rows| - 1;
      (if rows[n].p.org == org && rows[n].p.env == env then [rows[n]] else []) + OrgListing(rows[..n], org, env)
  }

  /** The rows of the organisation that concern the account are all in the account's currency. */
  predicate OneCurrency(rows: seq<Row>, a: L.AccountKey) {
    forall i :: 0 <= i < |rows| && rows[i].p.org == a.org && rows[i].p.env == a.env && Concerns(rows[i], a.ext) ==>
      rows[i].p.currency == a.currency
  }

  lemma OnlyCons(tx: Row, rest: seq<Row>, ext: string)
    ensures Only([tx] + rest, ext) == if Concerns(tx, ext) then [tx] + Only(rest, ext) else Only(rest, ext)
  {
    assert ([tx] + rest)[1..] == rest;
  }

  lemma {:induction false} OnlyConcat(xs: seq<Row>, ys: seq<Row>, ext: string)
    ensures Only(xs + ys, ext) == Only(xs, ext) + Only(ys, ext)
  {
    if xs == [] {
      assert xs + ys == ys;
    } else {
      var tx, rest := xs[0], xs[1..];
      assert xs + ys == [tx] + (rest + ys) && xs == [tx] + rest;
      OnlyConcat(rest, ys, ext);
      OnlyCons(tx, rest + ys, ext);
      OnlyCons(tx, rest, ext);
    }
  }

  lemma {:induction false} OnlyOfOrg(rows: seq<Row>, a: L.AccountKey)
    requires OneCurrency(rows, a)
    ensures Only(OrgListing(rows, a.org, a.env), a.ext) == Listing(rows, a)
  {
    if rows != [] {
      var n := |rows| - 1;
      OnlyOfOrg(rows[..n], a);
      var rest := OrgListing(rows[..n], a.org, a.env);
      var head := OrgListing(rows, a.org, a.env);
      if rows[n].p.org == a.org && rows[n].p.env == a.env {
        assert head == [rows[n]] + rest && head[1..] == rest;
        assert Concerns(rows[n], a.ext) <==> Touches(rows[n].p, a);
      } else {
        assert head == rest;
      }
    }
  }

  lemma {:induction false} OrgListingFrom(rows: seq<Row>, org: string, env: string, tx: Row)
    requires tx in OrgListing(rows, org, env)
    ensures tx in rows && tx.p.org == org && tx.p.env == env
  {
    var n := |rows| - 1;
    if tx in OrgListing(rows[..n], org, env) {
      OrgListingFrom(rows[..n], org, env, tx);
    }
  }

  /** What the ledger answers for the accounts of an organisation, shown to customers. */
  function Balances(l: L.Ledger, org: string, env: string): (string, string) -> int {
    (ext, currency) => CustomerView(l, L.AccountKey(org, env, ext, currency))
  }

  /** The account's rows on a page are a stretch of the account's own history. */
  lemma PageOfAccount(hist: seq<Row>, skip: nat, n: nat, ext: string)
    requires skip + n <= |hist|
    ensures var mine := Only(hist, ext);
      var k := |Only(hist[..skip], ext)|;
      var m := |Only(hist[skip..skip + n], ext)|;
      k + m <= |mine| && Only(hist[skip..skip + n], ext) == mine[k..k + m]
  {
    var page := hist[skip..skip + n];
    assert hist == hist[..skip] + (page + hist[skip + n..]);
    OnlyConcat(hist[..skip], page + hist[skip + n..], ext);
    OnlyConcat(page, hist[skip + n..], ext);
  }

  lemma FetchedInCurrency(page: seq<Row>, start: Cache, balance: (string, string) -> int, a: L.AccountKey)
    requires Fetched(PagePairs(page), start, balance)
    requires forall tx :: tx in page && Concerns(tx, a.ext) ==> tx.p.currency == a.currency
    requires forall tx :: tx in page ==> Regular(tx)
    requires exists tx :: tx in page && Concerns(tx, a.ext)
    ensures a.ext in start && start[a.ext] == balance(a.ext, a.currency)
  {
    var tx :| tx in page && Concerns(tx, a.ext);
    assert Regular(tx);
    assert (a.ext, tx.p.currency) in PagePairs(page);
    assert a.ext in start;
  }

  lemma {:induction false} OnlyFrom(txs: seq<Row>, ext: string)
    requires Only(txs, ext) != []
    ensures exists tx :: tx in txs && Concerns(tx, ext)
  {
    if Concerns(txs[0], ext) {
      assert txs[0] in txs;
    } else {
      OnlyFrom(txs[1..], ext);
      var tx :| tx in txs[1..] && Concerns(tx, ext);
    }
  }

  /** A page shows an account its own walk, from the balance the ledger answers. */
  lemma PageWalk(page: seq<Row>, start: Cache, balance: (string, string) -> int, a: L.AccountKey)
    requires Fetched(PagePairs(page), start, balance) && Only(page, a.ext) != []
    requires forall tx :: tx in page ==> Regular(tx)
    requires forall tx :: tx in page && Concerns(tx, a.ext) ==> tx.p.currency == a.currency
    ensures ShownFor(page, OrgWalk(page, start), a.ext)
         == AccountWalk(Only(page, a.ext), a.ext, balance(a.ext, a.currency))
  {
    OnlyFrom(page, a.ext);
    FetchedInCurrency(page, start, balance, a);
    assert forall i :: 0 <= i < |page| ==> page[i] in page;
    FetchedHits(page, start, balance);
    OrgWalkRefinesAccountWalk(page, start, a.ext);
  }

  /** The walk over the account's rows of a page, within its own history. */
  lemma StretchShows(hist: seq<Row>, skip: nat, n: nat, ext: string, current: int, j: nat)
    requires skip + n <= |hist| && j < |Only(hist[skip..skip + n], ext)|
    ensures var mine, k := Only(hist, ext), |Only(hist[..skip], ext)|;
      && k + j < |mine|
      && AccountWalk(Only(hist[skip..skip + n], ext), ext, current)[j]
           == Total(mine[k + j..], ext) + Total(mine[..k], ext) + (current - Total(mine, ext))
  {
    PageOfAccount(hist, skip, n, ext);
    var k, m := |Only(hist[..skip], ext)|, |Only(hist[skip..skip + n], ext)|;
    WalkReconstructs(Only(hist, ext), k, m, ext, current, j);
  }

  /** The page of the organisation's listing that starts after `skip` rows and shows `n`. */
  function PageOf(rows: seq<Row>, a: L.AccountKey, skip: nat, n: nat): (page: seq<Row>)
    requires skip + n <= |OrgListing(rows, a.org, a.env)|
    ensures |page| == n
  {
    OrgListing(rows, a.org, a.env)[skip..skip + n]
  }

  /** The page shows the account at least `j + 1` times, and every balance read for it answered. */
  predicate OnPage(rows: seq<Row>, l: L.Ledger, a: L.AccountKey, skip: nat, n: nat, start: Cache, j: nat) {
    && OneCurrency(rows, a) && skip + n <= |OrgListing(rows, a.org, a.env)|
    && j < |Only(PageOf(rows, a, skip, n), a.ext)|
    && Fetched(PagePairs(PageOf(rows, a, skip, n)), start, Balances(l, a.org, a.env))
  }

  /** How many of the account's transactions stand on earlier pages. */
  function Skipped(rows: seq<Row>, a: L.AccountKey, skip: nat): nat
    requires skip <= |OrgListing(rows, a.org, a.env)|
  {
    |Only(OrgListing(rows, a.org, a.env)[..skip], a.ext)|
  }

  function ShownOnPage(rows: seq<Row>, a: L.AccountKey, skip: nat, n: nat, start: Cache): seq<int>
    requires skip + n <= |OrgListing(rows, a.org, a.env)|
  {
    ShownFor(PageOf(rows, a, skip, n), OrgWalk(PageOf(rows, a, skip, n), start), a.ext)
  }

  lemma PageIsRegular(rows: seq<Row>, a: L.AccountKey, skip: nat, n: nat)
    requires OneCurrency(rows, a) && skip + n <= |OrgListing(rows, a.org, a.env)|
    requires forall i :: 0 <= i < |rows| ==> Regular(rows[i])
    ensures forall tx :: tx in PageOf(rows, a, skip, n) ==>
      Regular(tx) && (Concerns(tx, a.ext) ==> tx.p.currency == a.currency)
  {
    forall tx | tx in PageOf(rows, a, skip, n)
      ensures Regular(tx) && (Concerns(tx, a.ext) ==> tx.p.currency == a.currency)
    {
      OrgListingFrom(rows, a.org, a.env, tx);
      var i :| 0 <= i < |rows| && rows[i] == tx;
    }
  }

  lemma TablePageShows(rows: seq<Row>, l: L.Ledger, a: L.AccountKey, skip: nat, n: nat, start: Cache, j: nat)
    requires OnPage(rows, l, a, skip, n, start, j) && forall i :: 0 <= i < |rows| ==> Regular(rows[i])
    requires CustomerView(l, a) == Total(Listing(rows, a), a.ext) + Unconfirmed(rows, l, a)
    ensures var mine, k := Listing(rows, a), Skipped(rows, a, skip);
      && k + j < |mine| && j < |ShownOnPage(rows, a, skip, n, start)|
      && ShownOnPage(rows, a, skip, n, start)[j]
           == Total(mine[k + j..], a.ext) + Total(mine[..k], a.ext) + Unconfirmed(rows, l, a)
  {
    ShownIsWalk(rows, l, a, skip, n, start, j);
    OwnStretch(rows, a, skip, n, CustomerView(l, a), j);
  }

  lemma ShownIsWalk(rows: seq<Row>, l: L.Ledger, a: L.AccountKey, skip: nat, n: nat, start: Cache, j: nat)
    requires OnPage(rows, l, a, skip, n, start, j) && forall i :: 0 <= i < |rows| ==> Regular(rows[i])
    ensures ShownOnPage(rows, a, skip, n, start)
         == AccountWalk(Only(PageOf(rows, a, skip, n), a.ext), a.ext, CustomerView(l, a))
  {
    PageIsRegular(rows, a, skip, n);
    PageWalk(PageOf(rows, a, skip, n), start, Balances(l, a.org, a.env), a);
  }

  lemma OwnStretch(rows: seq<Row>, a: L.AccountKey, skip: nat, n: nat, current: int, j: nat)
    requires OneCurrency(rows, a) && skip + n <= |OrgListing(rows, a.org, a.env)|
    requires j < |Only(PageOf(rows, a, skip, n), a.ext)|
    ensures var mine, k := Listing(rows, a), Skipped(rows, a, skip);
      && k + j < |mine|
      && AccountWalk(Only(PageOf(rows, a, skip, n), a.ext), a.ext, current)[j]
           == Total(mine[k + j..], a.ext) + Total(mine[..k], a.ext) + (current - Total(mine, a.ext))
  {
    OnlyOfOrg(rows, a);
    StretchShows(OrgListing(rows, a.org, a.env), skip, n, a.ext, current, j);
  }

  /**
  In every reachable state, a page of the organisation's listing shows for each transaction of an
  account the balance its posted history gives, plus the unconfirmed effect, plus what the account's
  transactions on earlier pages add up to.
  */
  lemma PageBalances(
    cfg: Config, hyp: set<Hypothesis>, t0: int, steps: seq<Step>, s: System, a: L.AccountKey,
    skip: nat, n: nat, start: Cache, j: nat)
    requires Honest in hyp && Legal(cfg, hyp, Init(t0), steps) && s == Run(cfg, hyp, Init(t0), steps)
    requires !L.IsSystem(a.ext) && OnPage(s.rows, s.ledger, a, skip, n, start, j)
    ensures var mine, k := Listing(s.rows, a), Skipped(s.rows, a, skip);
      && k + j < |mine| && j < |ShownOnPage(s.rows, a, skip, n, start)|
      && ShownOnPage(s.rows, a, skip, n, start)[j]
           == Total(mine[k + j..], a.ext) + Total(mine[..k], a.ext) + Unconfirmed(s.rows, s.ledger, a)
  {
    StateFacts(cfg, hyp, t0, steps, s, a);
    TablePageShows(s.rows, s.ledger, a, skip, n, start, j);
  }

  lemma StateFacts(cfg: Config, hyp: set<Hypothesis>, t0: int, steps: seq<Step>, s: System, a: L.AccountKey)
    requires Honest in hyp && Legal(cfg, hyp, Init(t0), steps) && s == Run(cfg, hyp, Init(t0), steps)
    requires !L.IsSystem(a.ext)
    ensures forall i :: 0 <= i < |s.rows| ==> Regular(s.rows[i])
    ensures CustomerView(s.ledger, a) == Total(Listing(s.rows, a), a.ext) + Unconfirmed(s.rows, s.ledger, a)
  {
    RowsAreRegular(cfg, hyp, t0, steps);
    ListingStarts(cfg, hyp, t0, steps, a);
  }

  /** Page 1 skips nothing: it is exact if and only if the unconfirmed effect is zero. */
  lemma FirstPageExactIff(
    cfg: Config, hyp: set<Hypothesis>, t0: int, steps: seq<Step>, s: System, a: L.AccountKey,
    n: nat, start: Cache, j: nat)
    requires Honest in hyp && Legal(cfg, hyp, Init(t0), steps) && s == Run(cfg, hyp, Init(t0), steps)
    requires !L.IsSystem(a.ext) && OnPage(s.rows, s.ledger, a, 0, n, start, j)
    ensures j < |Listing(s.rows, a)| && j < |ShownOnPage(s.rows, a, 0, n, start)|
    ensures ShownOnPage(s.rows, a, 0, n, start)[j] == Total(Listing(s.rows, a)[j..], a.ext) <==>
      Unconfirmed(s.rows, s.ledger, a) == 0
  {
    PageBalances(cfg, hyp, t0, steps, s, a, 0, n, start, j);
    assert OrgListing(s.rows, a.org, a.env)[..0] == [];
    assert Skipped(s.rows, a, 0) == 0;
    assert Listing(s.rows, a)[..0] == [];
  }

  /** A posted self-transfer would make the single pass count its amount twice. */
  lemma SelfTransferBreaksPass(self: Row, older: Row, cache: Cache, ext: string)
    requires ext in cache && self.p.kind == Transfer && self.p.from == self.p.to == ext
    requires self.status == Posted && older.p.from == older.p.to == ext
    ensures var txs, start := [self, older], cache[ext];
      && ShownFor(txs, OrgWalk(txs, cache), ext) == [start, start + 2 * self.p.amount]
      && AccountWalk(Only(txs, ext), ext, start) == [start, start + self.p.amount]
  {
    var txs := [self, older];
    assert txs[1..] == [older] && [older][1..] == [];
    var next := PassRow(self, cache).0;
    assert OrgWalk(txs, cache)[1..] == OrgWalk([older], next);
    assert ShownFor([older], OrgWalk([older], next), ext) == [next[ext]];
    assert Only([older], ext) == [older];
    assert Only(txs, ext) == [self, older];
    assert AccountWalk([older], ext, cache[ext] + self.p.amount) == [cache[ext] + self.p.amount];
  }

}
