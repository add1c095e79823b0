/** When entries balance, and why the books of accounts-service balance over every run. */
module TrialBalance {
  import opened Ledger
  import opened LedgerRuns

  /** The account types a posting works with: the stored ones, or the defaults it creates. */
  function TypeOfSource(l: Ledger, req: Request): AccountType {
    ResolveBoth(l, req).types[SourceKey(req)]
  }

  function TypeOfDest(l: Ledger, req: Request): AccountType {
    ResolveBoth(l, req).types[DestKey(req)]
  }

  /** The two entries are one debit and one credit exactly for these combinations. */
  lemma OneDebitOneCreditIff(l: Ledger, req: Request)
    ensures
      Plan(l, req)[0].kind != Plan(l, req)[1].kind <==>
        var sameSide := DebitNormal(TypeOfSource(l, req)) == DebitNormal(TypeOfDest(l, req));
        if DetectOperation(req.source, req.dest) == Transfer then sameSide else !sameSide
    ensures
      Signed(Plan(l, req)[0]) + Signed(Plan(l, req)[1]) == 0 <==>
        req.amount == 0 || Plan(l, req)[0].kind != Plan(l, req)[1].kind
  {
  }

  /** From a bank-clearing account to a customer: an accepted posting with two credits. */
  lemma ClearingToCustomerUnbalanced(org: string, cust: string, amount: int)
    requires amount > 0 && !IsSystem(cust)
    ensures var req := Request(org, "sandbox", CLEARING, cust, amount, "USD", 0, "k", false);
      && PostOk(EMPTY, req).1 == PostedOk
      && Net(PostOk(EMPTY, req).0.entries, SourceKey(req)) == -amount
      && Net(PostOk(EMPTY, req).0.entries, DestKey(req)) == -amount
  {
    var req := Request(org, "sandbox", CLEARING, cust, amount, "USD", 0, "k", false);
    assert IsSystem(CLEARING);
    assert CLEARING != CASH && cust != CASH && IsSystem(CASH);
    UnbalancedShape(req);
  }

  /** From cash control to a custom pool: an accepted posting with two debits. */
  lemma CashToPoolUnbalanced(org: string, amount: int)
    requires amount > 0
    ensures var req := Request(org, "sandbox", CASH, POOL, amount, "USD", 0, "k", false);
      && PostOk(EMPTY, req).1 == PostedOk
      && Net(PostOk(EMPTY, req).0.entries, SourceKey(req)) == amount
      && Net(PostOk(EMPTY, req).0.entries, DestKey(req)) == amount
  {
    var req := Request(org, "sandbox", CASH, POOL, amount, "USD", 0, "k", false);
    assert IsSystem(CASH) && IsSystem(POOL);
    assert |POOL| < |CASH| && POOL[7] != CLEARING[7];
    UnbalancedShape(req);
  }

  lemma UnbalancedShape(req: Request)
    requires req.source != req.dest
    ensures Acceptable(req) ==> PostOk(EMPTY, req).1 == PostedOk
    ensures Acceptable(req) ==> var p := Plan(EMPTY, req); var es := PostOk(EMPTY, req).0.entries;
      Net(es, SourceKey(req)) == Signed(p[0]) && Net(es, DestKey(req)) == Signed(p[1])
  {
    if Acceptable(req) {
      CleanCall(EMPTY, req, FRESH_WRITES);
      var p := Plan(EMPTY, req);
      assert [] + p == p == p[..2];
      NetPlan(EMPTY, req);
    }
  }

  /** Whatever its type, an account shows more after an increase and less after a decrease, by the amount. */
  lemma ChangeShows(l: Ledger, a: AccountKey, tx: TxKey, change: Change, amount: int)
    requires a in l.types
    ensures var e := Entry(tx, a, EntryTypeFor(l.types[a], change), amount);
      DisplayBalance(l.(balances := Bump(l.balances, e)), a)
        == DisplayBalance(l, a) + if change == Increase then amount else -amount
  {
  }

  lemma FeeNames()
    ensures IsSystem(CASH) && IsSystem(FEES) && FEES != CASH && FEES != CLEARING
  {
    assert FEES[7] == 'F' && CASH[7] == 'C' && CLEARING[7] == 'B';
  }

  /** Fee income as a first destination is an income account, and a payment into it balances. */
  lemma FeeAsDestination(org: string, amount: int)
    requires amount > 0
    ensures var req := Request(org, "sandbox", CASH, FEES, amount, "USD", 0, "k", false);
      TypeOfDest(EMPTY, req) == Income && Plan(EMPTY, req)[0].kind == Debit && Plan(EMPTY, req)[1].kind == Credit
  {
    FeeNames();
  }

  /** Used first as a source it is an asset for good, and the same payment later books two debits. */
  lemma FeeAsSourceFirst(org: string, cust: string, amount: int)
    requires amount > 0 && !IsSystem(cust)
    ensures var first := Request(org, "sandbox", FEES, cust, amount, "USD", 0, "k0", false);
      var req := Request(org, "sandbox", CASH, FEES, amount, "USD", 1, "k1", false);
      var l := PostOk(EMPTY, first).0;
      && PostOk(EMPTY, first).1 == PostedOk
      && TypeOfDest(l, req) == Asset && Plan(l, req)[0].kind == Debit && Plan(l, req)[1].kind == Debit
  {
    FeeNames();
    var first := Request(org, "sandbox", FEES, cust, amount, "USD", 0, "k0", false);
    CleanCall(EMPTY, first, FRESH_WRITES);
  }

  // ---------- Sums over accounts ----------

  ghost function Sum(keys: set<AccountKey>, m: map<AccountKey, int>): int {
    if keys == {} then 0
    else
      var a :| a in keys;
      Amount(m, a) + Sum(keys - {a}, m)
  }

  lemma {:induction false} SumRemove(keys: set<AccountKey>, m: map<AccountKey, int>, a: AccountKey)
    requires a in keys
    ensures Sum(keys, m) == Amount(m, a) + Sum(keys - {a}, m)
    decreases |keys|
  {
    var b :| b in keys && Sum(keys, m) == Amount(m, b) + Sum(keys - {b}, m);
    if a != b {
      SumRemove(keys - {b}, m, a);
      SumRemove(keys - {a}, m, b);
      assert keys - {b} - {a} == keys - {a} - {b};
    }
  }

  lemma {:induction false} SumBump(keys: set<AccountKey>, m: map<AccountKey, int>, e: Entry)
    ensures Sum(keys, Bump(m, e)) == Sum(keys, m) + if e.account in keys then Signed(e) else 0
    decreases |keys|
  {
    if keys != {} {
      var a :| a in keys;
      SumRemove(keys, m, a);
      SumRemove(keys, Bump(m, e), a);
      SumBump(keys - {a}, m, e);
    }
  }

  /** Accounts without a balance row add nothing. */
  lemma {:induction false} SumGrow(keys: set<AccountKey>, more: set<AccountKey>, m: map<AccountKey, int>)
    requires keys <= more && forall a :: a in more - keys ==> a !in m
    ensures Sum(more, m) == Sum(keys, m)
    decreases |more|
  {
    if more - keys == {} {
      assert more == keys;
    } else {
      var a :| a in more - keys;
      SumRemove(more, m, a);
      SumGrow(keys, more - {a}, m);
    }
  }

  // ---------- The three request shapes of accounts-service ----------

  datatype Group = Group(org: string, env: string, currency: string)

  predicate InGroup(a: AccountKey, g: Group) {
    a.org == g.org && a.env == g.env && a.currency == g.currency
  }

  function CashOf(g: Group): AccountKey {
    AccountKey(g.org, g.env, CASH, g.currency)
  }

  /** All accounts of the group that have a balance row. */
  function Members(l: Ledger, g: Group): set<AccountKey> {
    set a | a in l.balances && InGroup(a, g)
  }

  /** Deposit, withdrawal or transfer between customer accounts. */
  predicate CustomerShape(req: Request) {
    && !req.isDeposit
    && (req.source == CASH || !IsSystem(req.source))
    && (req.dest == CASH || !IsSystem(req.dest))
    && !(req.source == CASH && req.dest == CASH)
  }

  /** Only cash control and customers exist, with the types their first resolve gives them. */
  predicate CustomerTypes(l: Ledger) {
    && (forall a :: a in l.types ==>
         if a.ext == CASH then l.types[a] == Asset else !IsSystem(a.ext) && l.types[a] == Liability)
    && (forall a :: a in l.balances ==> a in l.types)
  }

  ghost predicate Balanced(l: Ledger) {
    forall g :: Sum(Members(l, g), l.balances) == 0
  }

  /** Each of the three shapes debits its source and credits its destination. */
  lemma ShapeEntries(l: Ledger, req: Request)
    requires CustomerTypes(l) && CustomerShape(req)
    ensures CustomerTypes(ResolveBoth(l, req).(balances := map[]))
    ensures Plan(l, req)[0].kind == Debit && Plan(l, req)[1].kind == Credit
  {
    ShapeTypes(l, req);
  }

  lemma ShapeTypes(l: Ledger, req: Request)
    requires CustomerTypes(l) && CustomerShape(req)
    ensures CustomerTypes(ResolveBoth(l, req).(balances := map[]))
    ensures TypeOfSource(l, req) == if req.source == CASH then Asset else Liability
    ensures TypeOfDest(l, req) == if req.dest == CASH then Asset else Liability
  {
    assert IsSystem(CASH);
    ResolvedKeepsShape(l, SourceKey(req), SourceType(req));
    ResolvedKeepsShape(ResolveIn(l, SourceKey(req), SourceType(req)), DestKey(req), DestType(req));
  }

  lemma ResolvedKeepsShape(l: Ledger, a: AccountKey, ty: AccountType)
    requires CustomerTypes(l.(balances := map[]))
    requires if a.ext == CASH then ty == Asset else !IsSystem(a.ext) && ty == Liability
    ensures CustomerTypes(ResolveIn(l, a, ty).(balances := map[]))
  {
  }

  lemma ShapeKeepsTypes(l: Ledger, req: Request)
    requires NoOrphans(l) && CustomerTypes(l) && CustomerShape(req)
    ensures CustomerTypes(PostOk(l, req).0)
  {
    CleanCall(l, req, FRESH_WRITES);
    ShapeEntries(l, req);
    var r := PostOk(l, req).0;
    if r != l {
      forall a | a in r.balances ensures a in r.types {
        BumpAllIsNet(l.balances, Plan(l, req), a);
      }
    }
  }

  lemma BalancedCall(l: Ledger, req: Request, survives: nat)
    requires NoOrphans(l) && CustomerTypes(l) && Balanced(l) && CustomerShape(req)
    ensures var r := Post(l, req, survives).0; NoOrphans(r) && CustomerTypes(r) && Balanced(r)
  {
    var r := Post(l, req, survives).0;
    CleanCall(l, req, survives);
    if r != l {
      ShapeEntries(l, req);
      var p := Plan(l, req);
      BumpPair(l.balances, p);
      forall g ensures Sum(Members(r, g), r.balances) == 0 {
        PairKeepsSum(l, r, p[0], p[1], g);
      }
    }
  }

  lemma BumpPair(b: map<AccountKey, int>, p: seq<Entry>)
    requires |p| == 2
    ensures BumpAll(b, p) == Bump(Bump(b, p[0]), p[1])
  {
    assert p[..1] == [p[0]] && p[..1][..0] == [];
    assert BumpAll(b, p[..1]) == Bump(b, p[0]);
  }

  /** A debit and a credit of the same amount within one group leave every group's sum. */
  lemma PairKeepsSum(l: Ledger, r: Ledger, d: Entry, c: Entry, g: Group)
    requires r.balances == Bump(Bump(l.balances, d), c) && Signed(d) + Signed(c) == 0
    requires InGroup(d.account, g) <==> InGroup(c.account, g)
    ensures Sum(Members(r, g), r.balances) == Sum(Members(l, g), l.balances)
  {
    SumBump(Members(r, g), Bump(l.balances, d), c);
    SumBump(Members(r, g), l.balances, d);
    SumGrow(Members(l, g), Members(r, g), l.balances);
  }

  /** Over every run of the three shapes, crashes included, the balances of a group sum to zero. */
  lemma {:induction false} BalancedRun(l: Ledger, calls: seq<Call>)
    requires NoOrphans(l) && CustomerTypes(l) && Balanced(l)
    requires forall i :: 0 <= i < |calls| ==> CustomerShape(calls[i].req)
    ensures var r := RunCalls(l, calls); NoOrphans(r) && CustomerTypes(r) && Balanced(r)
    decreases |calls|
  {
    if calls != [] {
      BalancedCall(l, calls[0].req, calls[0].survives);
      BalancedRun(Post(l, calls[0].req, calls[0].survives).0, calls[1..]);
    }
  }

  /** The sum of what the customers of a group see. */
  ghost function CustomerTotal(l: Ledger, g: Group): int {
    Displayed(l, Members(l, g) - {CashOf(g)})
  }

  ghost function Displayed(l: Ledger, keys: set<AccountKey>): int {
    if keys == {} then 0
    else
      var a :| a in keys;
      DisplayBalance(l, a) + Displayed(l, keys - {a})
  }

  lemma {:induction false} DisplayedIsNegatedSum(l: Ledger, keys: set<AccountKey>)
    requires forall a :: a in keys ==> a in l.types && l.types[a] == Liability
    ensures Displayed(l, keys) == -Sum(keys, l.balances)
    decreases |keys|
  {
    if keys != {} {
      var a :| a in keys && Displayed(l, keys) == DisplayBalance(l, a) + Displayed(l, keys - {a});
      SumRemove(keys, l.balances, a);
      DisplayedIsNegatedSum(l, keys - {a});
      assert DisplayBalance(l, a) == -Amount(l.balances, a);
    }
  }

  /** From an empty ledger: cash control always holds exactly what all customers see. */
  lemma CashCoversCustomers(calls: seq<Call>, g: Group)
    requires forall i :: 0 <= i < |calls| ==> CustomerShape(calls[i].req)
    ensures var l := RunCalls(EMPTY, calls);
      DisplayBalance(l, CashOf(g)) == CustomerTotal(l, g) && Sum(Members(l, g), l.balances) == 0
  {
    EmptyIsBalanced();
    BalancedRun(EMPTY, calls);
    BalancedIsCovered(RunCalls(EMPTY, calls), g);
  }

  lemma EmptyIsBalanced()
    ensures Balanced(EMPTY)
  {
    forall g ensures Sum(Members(EMPTY, g), EMPTY.balances) == 0 {
      assert Members(EMPTY, g) == {};
    }
  }

  lemma BalancedIsCovered(l: Ledger, g: Group)
    requires CustomerTypes(l) && Balanced(l)
    ensures DisplayBalance(l, CashOf(g)) == CustomerTotal(l, g)
  {
    var all := Members(l, g);
    forall a | a in all - {CashOf(g)} ensures l.types[a] == Liability {
      assert a.ext != CASH;
    }
    DisplayedIsNegatedSum(l, all - {CashOf(g)});
    if CashOf(g) in all {
      SumRemove(all, l.balances, CashOf(g));
    } else {
      assert all - {CashOf(g)} == all;
    }
  }

}
