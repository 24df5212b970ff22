/**
 * The shared-expense page: per-person net balances folded from the expense
 * and settlement lists, and the greedy creditor/debtor matching that turns
 * them into suggested payments. Money is a `real` (the page uses JavaScript
 * numbers); the page's 0.01 tolerance is `Tolerance`.
 */
module Expenses {
  import opened Wrappers
  import opened Lists

  type Email = string

  datatype Expense = Expense(
    id: int, description: string, amount: real,
    paidBy: Email, splitBetween: seq<Email>, date: string)

  datatype Settlement = Settlement(
    id: int, fromUser: Email, toUser: Email, amount: real, date: string)

  /** One suggested payment: `from` pays `to` the given amount. */
  datatype Debt = Debt(from: Email, to: Email, amount: real)

  /** One `[person, balance]` pair of `Object.entries(balances)`. */
  datatype Entry = Entry(name: Email, amount: real)

  type Balances = map<Email, real>

  const Tolerance: real := 0.01

  // ---------------------------------------------------------------------------
  // Balances
  // ---------------------------------------------------------------------------

  /**
   * Every person an expense or settlement names is a flat member. The page
   * only offers members in its selectors; an unknown name would turn into NaN.
   */
  predicate AllMembers(members: seq<Email>, expenses: seq<Expense>, settlements: seq<Settlement>) {
    && (forall e | e in expenses :: e.paidBy in members && forall p | p in e.splitBetween :: p in members)
    && (forall s | s in settlements :: s.fromUser in members && s.toUser in members)
  }

  /** Everyone in `people` already has a balance entry. */
  predicate Recorded(b: Balances, people: seq<Email>) {
    Within(b.Keys, people)
  }

  predicate Within(keys: set<Email>, people: seq<Email>) {
    forall p | p in people :: p in keys
  }

  predicate ExpenseRecorded(b: Balances, e: Expense) {
    e.paidBy in b && Within(b.Keys, e.splitBetween)
  }

  function Zero(members: seq<Email>): (b: Balances)
    ensures b.Keys == set m | m in members
  {
    map m | m in members :: 0.0
  }

  /** What one split participant owes the payer: `amount / split_between.length`. */
  function Share(e: Expense): real {
    if |e.splitBetween| == 0 then 0.0 else e.amount / (|e.splitBetween| as real)
  }

  /** One turn of the inner `forEach`: a participant other than the payer owes `share`. */
  function Charge(b: Balances, payer: Email, person: Email, share: real): (r: Balances)
    requires payer in b && person in b
    ensures r.Keys == b.Keys
  {
    if person == payer then b
    else
      var b1 := b[person := b[person] - share];
      b1[payer := b1[payer] + share]
  }

  function ApplyShares(b: Balances, payer: Email, share: real, split: seq<Email>): (r: Balances)
    requires payer in b && Recorded(b, split)
    ensures r.Keys == b.Keys
  {
    if split == [] then b
    else
      var last := split[|split| - 1];
      Charge(ApplyShares(b, payer, share, split[..|split| - 1]), payer, last, share)
  }

  function ApplyExpense(b: Balances, e: Expense): (r: Balances)
    requires ExpenseRecorded(b, e)
    ensures r.Keys == b.Keys
  {
    ApplyShares(b, e.paidBy, Share(e), e.splitBetween)
  }

  function ApplyExpenses(b: Balances, expenses: seq<Expense>): (r: Balances)
    requires forall e | e in expenses :: ExpenseRecorded(b, e)
    ensures r.Keys == b.Keys
  {
    if expenses == [] then b
    else
      var last := expenses[|expenses| - 1];
      var before := ApplyExpenses(b, expenses[..|expenses| - 1]);
      assert last in expenses && before.Keys == b.Keys;
      assert ExpenseRecorded(b, last);
      ApplyExpense(before, last)
  }

  /** A settlement: the payer's balance goes up by the amount, the receiver's down. */
  function ApplySettlement(b: Balances, s: Settlement): (r: Balances)
    requires s.fromUser in b && s.toUser in b
    ensures r.Keys == b.Keys
    ensures forall q | q in b ::
      r[q] == b[q] + (if q == s.fromUser then s.amount else 0.0) - (if q == s.toUser then s.amount else 0.0)
  {
    var b1 := b[s.fromUser := b[s.fromUser] + s.amount];
    b1[s.toUser := b1[s.toUser] - s.amount]
  }

  function ApplySettlements(b: Balances, settlements: seq<Settlement>): (r: Balances)
    requires forall s | s in settlements :: s.fromUser in b && s.toUser in b
    ensures r.Keys == b.Keys
  {
    if settlements == [] then b
    else ApplySettlement(ApplySettlements(b, settlements[..|settlements| - 1]), settlements[|settlements| - 1])
  }

  /** `calculateBalances` as a value: members start at zero, then expenses, then settlements. */
  function Balance(members: seq<Email>, expenses: seq<Expense>, settlements: seq<Settlement>): (b: Balances)
    requires AllMembers(members, expenses, settlements)
    ensures b.Keys == set m | m in members
  {
    ApplySettlements(ApplyExpenses(Zero(members), expenses), settlements)
  }

  /** `calculateBalances`: a dictionary updated in place by nested loops. */
  method CalculateBalances(members: seq<Email>, expenses: seq<Expense>, settlements: seq<Settlement>)
    returns (balances: Balances)
    requires AllMembers(members, expenses, settlements)
    ensures balances == Balance(members, expenses, settlements)
  {
    balances := map[];
    for k := 0 to |members|
      invariant balances == Zero(members[..k])
    {
      ZeroStep(members, k);
      balances := balances[members[k] := 0.0];
    }
    assert members[..|members|] == members;
    var start := balances;

    for i := 0 to |expenses|
      invariant balances == ApplyExpenses(start, expenses[..i])
    {
      assert expenses[i] in expenses;
      ExpensesStep(start, expenses, i);
      balances := AddExpense(balances, expenses[i]);
    }
    assert expenses[..|expenses|] == expenses;
    var afterExpenses := balances;

    for i := 0 to |settlements|
      invariant balances == ApplySettlements(afterExpenses, settlements[..i])
    {
      SettlementsStep(afterExpenses, settlements, i);
      balances := AddSettlement(balances, settlements[i]);
    }
    assert settlements[..|settlements|] == settlements;
  }

  /** The callback of `settlements.forEach`: the payer's balance rises, the receiver's falls. */
  method AddSettlement(balances: Balances, s: Settlement) returns (r: Balances)
    requires s.fromUser in balances && s.toUser in balances
    ensures r == ApplySettlement(balances, s)
  {
    r := balances[s.fromUser := balances[s.fromUser] + s.amount];
    r := r[s.toUser := r[s.toUser] - s.amount];
  }

  /** The callback of `expenses.forEach`: split one expense among its participants. */
  method AddExpense(balances: Balances, e: Expense) returns (r: Balances)
    requires ExpenseRecorded(balances, e)
    ensures r == ApplyExpense(balances, e)
  {
    r := balances;
    // With an empty split the division is NaN in the page, but the loop below never uses it.
    var share := if |e.splitBetween| == 0 then 0.0 else e.amount / (|e.splitBetween| as real);
    for k := 0 to |e.splitBetween|
      invariant r == ApplyShares(balances, e.paidBy, share, e.splitBetween[..k])
    {
      var person := e.splitBetween[k];
      SharesStep(balances, e.paidBy, share, e.splitBetween, k);
      if person != e.paidBy {
        r := r[person := r[person] - share];
        r := r[e.paidBy := r[e.paidBy] + share];
      }
    }
    assert e.splitBetween[..|e.splitBetween|] == e.splitBetween;
  }

  lemma ZeroStep(members: seq<Email>, k: nat)
    requires k < |members|
    ensures Zero(members[..k + 1]) == Zero(members[..k])[members[k] := 0.0]
  {
    assert members[..k + 1] == members[..k] + [members[k]];
  }

  lemma SharesStep(b: Balances, payer: Email, share: real, split: seq<Email>, k: nat)
    requires payer in b && Recorded(b, split)
    requires k < |split|
    ensures ApplyShares(b, payer, share, split[..k + 1]) ==
      Charge(ApplyShares(b, payer, share, split[..k]), payer, split[k], share)
  {
    assert split[..k + 1][..k] == split[..k];
  }

  lemma ExpensesStep(b: Balances, expenses: seq<Expense>, i: nat)
    requires forall e | e in expenses :: ExpenseRecorded(b, e)
    requires i < |expenses|
    ensures var before := ApplyExpenses(b, expenses[..i]);
      ExpenseRecorded(before, expenses[i]) && ApplyExpenses(b, expenses[..i + 1]) == ApplyExpense(before, expenses[i])
  {
    assert expenses[i] in expenses;
    assert expenses[..i + 1][..i] == expenses[..i];
  }

  lemma SettlementsStep(b: Balances, settlements: seq<Settlement>, i: nat)
    requires forall s | s in settlements :: s.fromUser in b && s.toUser in b
    requires i < |settlements|
    ensures ApplySettlements(b, settlements[..i + 1]) ==
      ApplySettlement(ApplySettlements(b, settlements[..i]), settlements[i])
  {
    assert settlements[..i + 1][..i] == settlements[..i];
  }

  // ---------------------------------------------------------------------------
  // What one expense does, and the zero-sum invariant
  // ---------------------------------------------------------------------------

  /** How often `q` occurs in a split list. */
  function Occurrences(split: seq<Email>, q: Email): nat {
    if split == [] then 0
    else Occurrences(split[..|split| - 1], q) + (if split[|split| - 1] == q then 1 else 0)
  }

  /**
   * What the split list does to `q`'s balance, counted in shares: the payer
   * gains one per participant who is not the payer, anyone else loses one per
   * time they are listed.
   */
  function SharesGained(split: seq<Email>, payer: Email, q: Email): int {
    if q == payer then |split| - Occurrences(split, payer) else 0 - Occurrences(split, q) as int
  }

  /** How much one charge moves `q`'s balance. */
  function ChargeDelta(payer: Email, person: Email, share: real, q: Email): real {
    if person == payer then 0.0 else if q == payer then share else if q == person then -share else 0.0
  }

  /** How much a whole split list moves `q`'s balance, charge by charge. */
  function Received(split: seq<Email>, payer: Email, share: real, q: Email): real {
    if split == [] then 0.0
    else Received(split[..|split| - 1], payer, share, q) + ChargeDelta(payer, split[|split| - 1], share, q)
  }

  lemma {:induction false} ApplySharesEffect(b: Balances, payer: Email, share: real, split: seq<Email>, q: Email)
    requires payer in b && q in b && Recorded(b, split)
    ensures ApplyShares(b, payer, share, split)[q] == b[q] + Received(split, payer, share, q)
  {
    if split != [] {
      var init, last := split[..|split| - 1], split[|split| - 1];
      ApplySharesEffect(b, payer, share, init, q);
      var c := ApplyShares(b, payer, share, init);
      assert ApplyShares(b, payer, share, split) == Charge(c, payer, last, share);
      ChargeEffect(c, payer, last, share, q);
    }
  }

  /** Charge by charge, the split moves `q`'s balance by whole shares. */
  lemma ReceivedShares(split: seq<Email>, payer: Email, share: real, q: Email)
    ensures Received(split, payer, share, q) == share * (SharesGained(split, payer, q) as real)
  {
    ReceivedTimes(split, payer, share, q);
    TimesIsProduct(share, SharesGained(split, payer, q));
  }

  /** `n` shares, added up one at a time (or taken away, for negative `n`). */
  function Times(share: real, n: int): real
    decreases if n >= 0 then n else -n
  {
    if n == 0 then 0.0 else if n > 0 then Times(share, n - 1) + share else Times(share, n + 1) - share
  }

  lemma TimesSucc(share: real, n: int)
    ensures Times(share, n + 1) == Times(share, n) + share
  {
    if n < 0 && n + 1 < 0 {
      assert Times(share, n) == Times(share, n + 1) - share;
    }
  }

  lemma {:induction false} TimesIsProduct(share: real, n: int)
    ensures Times(share, n) == share * (n as real)
    decreases if n >= 0 then n else -n
  {
    if n > 0 {
      TimesIsProduct(share, n - 1);
    } else if n < 0 {
      TimesIsProduct(share, n + 1);
    }
  }

  /** The split's effect on `q`, counted in shares, one participant at a time. */
  lemma {:induction false} ReceivedTimes(split: seq<Email>, payer: Email, share: real, q: Email)
    ensures Received(split, payer, share, q) == Times(share, SharesGained(split, payer, q))
  {
    if split == [] {
      assert SharesGained(split, payer, q) == 0;
    } else {
      var init, last := split[..|split| - 1], split[|split| - 1];
      ReceivedTimes(init, payer, share, q);
      var g := SharesGained(init, payer, q);
      SharesGainedStep(split, payer, q);
      if last != payer && q == payer {
        TimesSucc(share, g);
      } else if last != payer && q == last {
        TimesSucc(share, g - 1);
      }
    }
  }

  lemma SharesGainedStep(split: seq<Email>, payer: Email, q: Email)
    requires split != []
    ensures SharesGained(split, payer, q) == SharesGained(split[..|split| - 1], payer, q) + LastShare(split, payer, q)
  {
  }

  /** What the last participant of a split adds to `q`'s shares. */
  function LastShare(split: seq<Email>, payer: Email, q: Email): int
    requires split != []
  {
    var last := split[|split| - 1];
    if last == payer then 0 else if q == payer then 1 else if q == last then -1 else 0
  }

  lemma SharesAdd(share: real, x: real, y: real, z: real)
    requires x + y == z
    ensures share * z == share * x + share * y
  {
  }

  lemma ChargeEffect(c: Balances, payer: Email, person: Email, share: real, q: Email)
    requires payer in c && person in c && q in c
    ensures Charge(c, payer, person, share)[q] == c[q] + ChargeDelta(payer, person, share, q)
  {
  }

  lemma {:induction false} OccurrencesOfDistinct(split: seq<Email>, q: Email)
    requires Distinct(split)
    ensures Occurrences(split, q) == if q in split then 1 else 0
  {
    if split != [] {
      var init, last := split[..|split| - 1], split[|split| - 1];
      assert split == init + [last];
      OccurrencesOfDistinct(init, q);
      assert last !in init;
    }
  }

  /**
   * One expense: every participant other than the payer loses one share per
   * time they are listed, and the payer gains a share for every listed
   * participant but themself (ReceivedShares counts the shares).
   */
  lemma ExpenseEffect(b: Balances, e: Expense, q: Email)
    requires ExpenseRecorded(b, e) && q in b
    ensures ApplyExpense(b, e)[q] == b[q] + Received(e.splitBetween, e.paidBy, Share(e), q)
  {
    ApplySharesEffect(b, e.paidBy, Share(e), e.splitBetween, q);
  }

  /** Someone who neither paid nor is in the split keeps their balance. */
  lemma ExpenseLeavesOthers(b: Balances, e: Expense, q: Email)
    requires ExpenseRecorded(b, e) && q in b && q != e.paidBy && q !in e.splitBetween
    ensures ApplyExpense(b, e)[q] == b[q]
  {
    ApplySharesEffect(b, e.paidBy, Share(e), e.splitBetween, q);
    ReceivedNothing(e.splitBetween, e.paidBy, Share(e), q);
  }

  lemma {:induction false} ReceivedNothing(split: seq<Email>, payer: Email, share: real, q: Email)
    requires q != payer && q !in split
    ensures Received(split, payer, share, q) == 0.0
  {
    if split != [] {
      ReceivedNothing(split[..|split| - 1], payer, share, q);
    }
  }

  /**
   * For a split list without repeats (what the page's toggle builds) each
   * participant other than the payer pays exactly amount / n.
   */
  lemma ParticipantPaysShare(b: Balances, e: Expense, q: Email)
    requires ExpenseRecorded(b, e) && q in b && Distinct(e.splitBetween) && |e.splitBetween| > 0
    requires q != e.paidBy && q in e.splitBetween
    ensures ApplyExpense(b, e)[q] == b[q] - e.amount / (|e.splitBetween| as real)
  {
    ExpenseEffect(b, e, q);
    ReceivedShares(e.splitBetween, e.paidBy, Share(e), q);
    DistinctShares(e, q);
  }

  /**
   * For a split list without repeats the payer is credited the whole amount,
   * less their own share when they are in the split.
   */
  lemma PayerGetsRest(b: Balances, e: Expense)
    requires ExpenseRecorded(b, e) && Distinct(e.splitBetween) && |e.splitBetween| > 0
    ensures ApplyExpense(b, e)[e.paidBy] ==
      b[e.paidBy] + e.amount - (if e.paidBy in e.splitBetween then Share(e) else 0.0)
  {
    var received := Received(e.splitBetween, e.paidBy, Share(e), e.paidBy);
    ExpenseEffect(b, e, e.paidBy);
    ReceivedShares(e.splitBetween, e.paidBy, Share(e), e.paidBy);
    DistinctShares(e, e.paidBy);
    assert received == e.amount - (if e.paidBy in e.splitBetween then Share(e) else 0.0);
  }

  /** The share arithmetic behind ParticipantPaysShare and PayerGetsRest. */
  lemma DistinctShares(e: Expense, q: Email)
    requires Distinct(e.splitBetween) && |e.splitBetween| > 0
    ensures q != e.paidBy && q in e.splitBetween ==>
      Share(e) * (SharesGained(e.splitBetween, e.paidBy, q) as real) == 0.0 - e.amount / (|e.splitBetween| as real)
    ensures q == e.paidBy ==>
      Share(e) * (SharesGained(e.splitBetween, e.paidBy, q) as real) ==
      e.amount - (if q in e.splitBetween then Share(e) else 0.0)
  {
    var split, share := e.splitBetween, Share(e);
    var n := |split| as real;
    OccurrencesOfDistinct(split, q);
    assert share * n == e.amount;
    if q == e.paidBy && q in split {
      assert SharesGained(split, e.paidBy, q) == |split| - 1;
      SharesAdd(share, (|split| - 1) as real, 1.0, n);
    }
  }

  lemma {:induction false} OccurrencesAbsent(split: seq<Email>, q: Email)
    requires q !in split
    ensures Occurrences(split, q) == 0
  {
    if split != [] {
      OccurrencesAbsent(split[..|split| - 1], q);
    }
  }

  /** An expense paid by the only person it is split between changes nothing. */
  lemma SelfSplitIsNeutral(b: Balances, e: Expense)
    requires e.paidBy in b && e.splitBetween == [e.paidBy]
    ensures ApplyExpense(b, e) == b
  {
    assert e.splitBetween[..0] == [];
    assert ApplyShares(b, e.paidBy, Share(e), e.splitBetween) == Charge(b, e.paidBy, e.paidBy, Share(e));
  }

  predicate Distinct(keys: seq<Email>) {
    forall a, b | 0 <= a < b < |keys| :: keys[a] != keys[b]
  }

  /** The order in which a JavaScript object lists its keys: first insertion wins. */
  function KeyOrder(members: seq<Email>): (keys: seq<Email>)
    ensures Distinct(keys) && |keys| <= |members|
    ensures forall m :: m in keys <==> m in members
  {
    if members == [] then []
    else
      var init, last := members[..|members| - 1], members[|members| - 1];
      assert members == init + [last];
      var k := KeyOrder(init);
      if last in k then k else k + [last]
  }

  /** The sum of the balances of `keys`. */
  function Total(b: Balances, keys: seq<Email>): real
    requires forall k | k in keys :: k in b
  {
    if keys == [] then 0.0 else b[keys[0]] + Total(b, keys[1..])
  }

  lemma {:induction false} TotalOfOthers(b: Balances, keys: seq<Email>, k: Email, v: real)
    requires forall x | x in keys :: x in b
    requires k !in keys
    ensures Total(b[k := v], keys) == Total(b, keys)
  {
    if keys != [] {
      TotalOfOthers(b, keys[1..], k, v);
    }
  }

  lemma {:induction false} TotalUpdate(b: Balances, keys: seq<Email>, k: Email, v: real)
    requires forall x | x in keys :: x in b
    requires Distinct(keys) && k in keys
    ensures Total(b[k := v], keys) == Total(b, keys) - b[k] + v
  {
    if keys[0] == k {
      assert k !in keys[1..];
      TotalOfOthers(b, keys[1..], k, v);
    } else {
      TotalUpdate(b, keys[1..], k, v);
    }
  }

  lemma {:induction false} TotalOfZero(members: seq<Email>, keys: seq<Email>)
    requires forall k | k in keys :: k in members
    ensures Total(Zero(members), keys) == 0.0
  {
    if keys != [] {
      TotalOfZero(members, keys[1..]);
    }
  }

  lemma {:induction false} ApplySharesKeepsTotal(b: Balances, payer: Email, share: real, split: seq<Email>, keys: seq<Email>)
    requires payer in b && Recorded(b, split)
    requires Distinct(keys) && forall k :: k in keys <==> k in b
    ensures Total(ApplyShares(b, payer, share, split), keys) == Total(b, keys)
  {
    if split != [] {
      var init, last := split[..|split| - 1], split[|split| - 1];
      ApplySharesKeepsTotal(b, payer, share, init, keys);
      ChargeKeepsTotal(ApplyShares(b, payer, share, init), payer, last, share, keys);
    }
  }

  lemma ChargeKeepsTotal(c: Balances, payer: Email, person: Email, share: real, keys: seq<Email>)
    requires payer in c && person in c
    requires Distinct(keys) && forall k :: k in keys <==> k in c
    ensures Total(Charge(c, payer, person, share), keys) == Total(c, keys)
  {
    if person != payer {
      var c1 := c[person := c[person] - share];
      var c2 := c1[payer := c1[payer] + share];
      TotalUpdate(c, keys, person, c[person] - share);
      TotalUpdate(c1, keys, payer, c1[payer] + share);
      var t, t1, t2 := Total(c, keys), Total(c1, keys), Total(c2, keys);
      assert t1 == t - share;
      assert t2 == t1 + share;
      assert Charge(c, payer, person, share) == c2;
    }
  }

  lemma {:induction false} ApplyExpensesKeepsTotal(b: Balances, expenses: seq<Expense>, keys: seq<Email>)
    requires forall e | e in expenses :: ExpenseRecorded(b, e)
    requires Distinct(keys) && forall k :: k in keys <==> k in b
    ensures Total(ApplyExpenses(b, expenses), keys) == Total(b, keys)
  {
    if expenses != [] {
      var init, last := expenses[..|expenses| - 1], expenses[|expenses| - 1];
      assert last in expenses;
      ApplyExpensesKeepsTotal(b, init, keys);
      ApplySharesKeepsTotal(ApplyExpenses(b, init), last.paidBy, Share(last), last.splitBetween, keys);
    }
  }

  lemma {:induction false} ApplySettlementsKeepsTotal(b: Balances, settlements: seq<Settlement>, keys: seq<Email>)
    requires forall s | s in settlements :: s.fromUser in b && s.toUser in b
    requires Distinct(keys) && forall k :: k in keys <==> k in b
    ensures Total(ApplySettlements(b, settlements), keys) == Total(b, keys)
  {
    if settlements != [] {
      var init, s := settlements[..|settlements| - 1], settlements[|settlements| - 1];
      assert s in settlements;
      ApplySettlementsKeepsTotal(b, init, keys);
      SettlementKeepsTotal(ApplySettlements(b, init), s, keys);
    }
  }

  lemma SettlementKeepsTotal(c: Balances, s: Settlement, keys: seq<Email>)
    requires s.fromUser in c && s.toUser in c
    requires Distinct(keys) && forall k :: k in keys <==> k in c
    ensures Total(ApplySettlement(c, s), keys) == Total(c, keys)
  {
    var c1 := c[s.fromUser := c[s.fromUser] + s.amount];
    var c2 := c1[s.toUser := c1[s.toUser] - s.amount];
    TotalUpdate(c, keys, s.fromUser, c[s.fromUser] + s.amount);
    TotalUpdate(c1, keys, s.toUser, c1[s.toUser] - s.amount);
    var t, t1, t2 := Total(c, keys), Total(c1, keys), Total(c2, keys);
    assert t1 == t + s.amount;
    assert t2 == t1 - s.amount;
    assert ApplySettlement(c, s) == c2;
  }

  /** Every update is paired with an equal and opposite one, so the balances sum to zero. */
  lemma BalancesSumToZero(members: seq<Email>, expenses: seq<Expense>, settlements: seq<Settlement>)
    requires AllMembers(members, expenses, settlements)
    ensures Total(Balance(members, expenses, settlements), KeyOrder(members)) == 0.0
  {
    var keys := KeyOrder(members);
    var z := Zero(members);
    TotalOfZero(members, keys);
    ApplyExpensesKeepsTotal(z, expenses, keys);
    ApplySettlementsKeepsTotal(ApplyExpenses(z, expenses), settlements, keys);
  }

  // ---------------------------------------------------------------------------
  // Debts
  // ---------------------------------------------------------------------------

  function Entries(b: Balances, keys: seq<Email>): (es: seq<Entry>)
    requires forall k | k in keys :: k in b
    ensures |es| == |keys|
    ensures forall i | 0 <= i < |keys| :: es[i] == Entry(keys[i], b[keys[i]])
  {
    seq(|keys|, i requires 0 <= i < |keys| => Entry(keys[i], b[keys[i]]))
  }

  function NameOf(e: Entry): Email { e.name }

  function Names(es: seq<Entry>): (ns: seq<Email>)
    ensures |ns| == |es| && forall i | 0 <= i < |es| :: ns[i] == es[i].name
  {
    seq(|es|, i requires 0 <= i < |es| => es[i].name)
  }

  predicate IsCreditor(e: Entry) { e.amount > Tolerance }

  predicate IsDebtor(e: Entry) { e.amount < -Tolerance }

  /** Sort key for `(a, b) => b[1] - a[1]`: the largest balance first. */
  function CreditorOrder(e: Entry): real { -e.amount }

  /** Sort key for `(a, b) => a[1] - b[1]`: the most negative balance first. */
  function DebtorOrder(e: Entry): real { e.amount }

  /** `filter(amount > 0.01).sort((a, b) => b[1] - a[1])`. */
  function Creditors(b: Balances, keys: seq<Email>): seq<Entry>
    requires forall k | k in keys :: k in b
  {
    SortBy(Filter(Entries(b, keys), IsCreditor), CreditorOrder)
  }

  /** `filter(amount < -0.01).sort((a, b) => a[1] - b[1])`. */
  function Debtors(b: Balances, keys: seq<Email>): seq<Entry>
    requires forall k | k in keys :: k in b
  {
    SortBy(Filter(Entries(b, keys), IsDebtor), DebtorOrder)
  }

  /**
   * The creditor list holds exactly the people owed more than the tolerance,
   * each once, largest first; the debtor list those owing more than it,
   * each once, most negative first.
   */
  lemma CreditorsAndDebtors(b: Balances, keys: seq<Email>)
    requires Distinct(keys) && forall k | k in keys :: k in b
    ensures var cs := Creditors(b, keys);
      && DistinctBy(cs, NameOf)
      && SortedBy(cs, CreditorOrder)
      && (forall c | c in cs :: c.name in keys && c.amount == b[c.name] && c.amount > Tolerance)
      && (forall k | k in keys && b[k] > Tolerance :: Entry(k, b[k]) in cs)
    ensures var ds := Debtors(b, keys);
      && DistinctBy(ds, NameOf)
      && SortedBy(ds, DebtorOrder)
      && (forall d | d in ds :: d.name in keys && d.amount == b[d.name] && d.amount < -Tolerance)
      && (forall k | k in keys && b[k] < -Tolerance :: Entry(k, b[k]) in ds)
  {
    Selection(b, keys, IsCreditor, CreditorOrder);
    Selection(b, keys, IsDebtor, DebtorOrder);
  }

  /** Filtering the entries of distinct keys and sorting them keeps exactly the selected entries, once each. */
  lemma Selection(b: Balances, keys: seq<Email>, keep: Entry -> bool, key: Entry -> real)
    requires Distinct(keys) && forall k | k in keys :: k in b
    ensures var s := SortBy(Filter(Entries(b, keys), keep), key);
      && DistinctBy(s, NameOf)
      && (forall e | e in s :: e.name in keys && e.amount == b[e.name] && keep(e))
      && (forall k | k in keys && keep(Entry(k, b[k])) :: Entry(k, b[k]) in s)
  {
    SelectionDistinct(b, keys, keep, key);
    SelectionSound(b, keys, keep, key);
    SelectionComplete(b, keys, keep, key);
  }

  lemma SelectionDistinct(b: Balances, keys: seq<Email>, keep: Entry -> bool, key: Entry -> real)
    requires Distinct(keys) && forall k | k in keys :: k in b
    ensures DistinctBy(SortBy(Filter(Entries(b, keys), keep), key), NameOf)
  {
    var es := Entries(b, keys);
    assert DistinctBy(es, NameOf);
    FilterKeepsDistinct(es, keep, NameOf);
    SortKeepsDistinct(Filter(es, keep), key, NameOf);
  }

  lemma SelectionSound(b: Balances, keys: seq<Email>, keep: Entry -> bool, key: Entry -> real)
    requires forall k | k in keys :: k in b
    ensures forall e | e in SortBy(Filter(Entries(b, keys), keep), key) ::
      e.name in keys && e.amount == b[e.name] && keep(e)
  {
    var es := Entries(b, keys);
    var kept := Filter(es, keep);
    var s := SortBy(kept, key);
    forall e | e in s ensures e.name in keys && e.amount == b[e.name] && keep(e) {
      assert e in multiset(s);
      assert e in kept;
      var i :| 0 <= i < |es| && es[i] == e;
    }
  }

  lemma SelectionComplete(b: Balances, keys: seq<Email>, keep: Entry -> bool, key: Entry -> real)
    requires forall k | k in keys :: k in b
    ensures forall k | k in keys && keep(Entry(k, b[k])) :: Entry(k, b[k]) in SortBy(Filter(Entries(b, keys), keep), key)
  {
    var es := Entries(b, keys);
    var s := SortBy(Filter(es, keep), key);
    forall k | k in keys && keep(Entry(k, b[k])) ensures Entry(k, b[k]) in s {
      var i :| 0 <= i < |keys| && keys[i] == k;
      assert es[i] == Entry(k, b[k]);
      FilterCount(es, keep, es[i]);
      assert Entry(k, b[k]) in multiset(s);
    }
  }

  /** The total the debts pay to `name`. */
  function PaidTo(debts: seq<Debt>, name: Email): real {
    if debts == [] then 0.0
    else
      var last := debts[|debts| - 1];
      PaidTo(debts[..|debts| - 1], name) + (if last.to == name then last.amount else 0.0)
  }

  /** The total the debts make `name` pay. */
  function PaidBy(debts: seq<Debt>, name: Email): real {
    if debts == [] then 0.0
    else
      var last := debts[|debts| - 1];
      PaidBy(debts[..|debts| - 1], name) + (if last.from == name then last.amount else 0.0)
  }

  lemma {:induction false} NeverPaidTo(debts: seq<Debt>, name: Email)
    requires forall k | 0 <= k < |debts| :: debts[k].to != name
    ensures PaidTo(debts, name) == 0.0
  {
    if debts != [] {
      NeverPaidTo(debts[..|debts| - 1], name);
    }
  }

  lemma {:induction false} NeverPaidBy(debts: seq<Debt>, name: Email)
    requires forall k | 0 <= k < |debts| :: debts[k].from != name
    ensures PaidBy(debts, name) == 0.0
  {
    if debts != [] {
      NeverPaidBy(debts[..|debts| - 1], name);
    }
  }

  /** The amount listed for `name`; the first one if the list is not distinct. */
  function AmountOf(es: seq<Entry>, name: Email): real {
    if es == [] then 0.0
    else if es[0].name == name then es[0].amount
    else AmountOf(es[1..], name)
  }

  lemma {:induction false} AmountOfAt(es: seq<Entry>, i: nat)
    requires DistinctBy(es, NameOf) && i < |es|
    ensures AmountOf(es, es[i].name) == es[i].amount
  {
    if i > 0 {
      assert es[0].name != es[i].name;
      AmountOfAt(es[1..], i - 1);
    }
  }

  function Min(x: real, y: real): real { if x <= y then x else y }

  function Abs(x: real): real { if x < 0.0 then -x else x }

  /** The payment rule of `getDebts`: the smaller of what remains owed either way. */
  ghost predicate GreedyAmounts(creditors: seq<Entry>, debtors: seq<Entry>, debts: seq<Debt>) {
    forall k | 0 <= k < |debts| ::
      debts[k].amount == Min(
        AmountOf(creditors, debts[k].to) - PaidTo(debts[..k], debts[k].to),
        -AmountOf(debtors, debts[k].from) - PaidBy(debts[..k], debts[k].from))
  }

  /** Every debt runs from a listed debtor to a listed creditor and is at least the tolerance. */
  ghost predicate Matched(creditors: seq<Entry>, debtors: seq<Entry>, debts: seq<Debt>) {
    forall k | 0 <= k < |debts| ::
      debts[k].to in Names(creditors) && debts[k].from in Names(debtors) && debts[k].amount >= Tolerance
  }

  /** The in-place second components: what each creditor is still owed and each debtor still owes. */
  ghost predicate Tracks(creditors: seq<Entry>, debtors: seq<Entry>, credit: seq<real>, debit: seq<real>, debts: seq<Debt>) {
    && |credit| == |creditors| && |debit| == |debtors|
    && (forall k | 0 <= k < |creditors| :: credit[k] == creditors[k].amount - PaidTo(debts, creditors[k].name))
    && (forall k | 0 <= k < |debtors| :: debit[k] == debtors[k].amount + PaidBy(debts, debtors[k].name))
  }

  /**
   * The two pointers: everyone before `i` is (nearly) paid off and never
   * overpaid, everyone from `i` on is still owed at least the tolerance; the
   * same for the debtors and `j`.
   */
  ghost predicate Pointers(credit: seq<real>, debit: seq<real>, i: int, j: int) {
    && 0 <= i <= |credit| && 0 <= j <= |debit|
    && (forall k | 0 <= k < i :: 0.0 <= credit[k] < Tolerance)
    && (forall k | i <= k < |credit| :: credit[k] >= Tolerance)
    && (forall k | 0 <= k < j :: -Tolerance < debit[k] <= 0.0)
    && (forall k | j <= k < |debit| :: debit[k] <= -Tolerance)
  }

  lemma PaidAppend(debts: seq<Debt>, d: Debt, name: Email)
    ensures PaidTo(debts + [d], name) == PaidTo(debts, name) + (if d.to == name then d.amount else 0.0)
    ensures PaidBy(debts + [d], name) == PaidBy(debts, name) + (if d.from == name then d.amount else 0.0)
  {
    assert (debts + [d])[..|debts|] == debts;
  }

  /** One payment from debtor `j` to creditor `i` keeps the remaining amounts in step. */
  lemma StepTracks(creditors: seq<Entry>, debtors: seq<Entry>, credit: seq<real>, debit: seq<real>,
                   debts: seq<Debt>, i: nat, j: nat, amount: real)
    requires Tracks(creditors, debtors, credit, debit, debts)
    requires DistinctBy(creditors, NameOf) && DistinctBy(debtors, NameOf)
    requires i < |creditors| && j < |debtors|
    ensures Tracks(creditors, debtors, credit[i := credit[i] - amount], debit[j := debit[j] + amount],
                   debts + [Debt(debtors[j].name, creditors[i].name, amount)])
  {
    var d := Debt(debtors[j].name, creditors[i].name, amount);
    forall k | 0 <= k < |creditors|
      ensures credit[i := credit[i] - amount][k] == creditors[k].amount - PaidTo(debts + [d], creditors[k].name)
    {
      PaidAppend(debts, d, creditors[k].name);
      assert k != i ==> NameOf(creditors[k]) != NameOf(creditors[i]);
    }
    forall k | 0 <= k < |debtors|
      ensures debit[j := debit[j] + amount][k] == debtors[k].amount + PaidBy(debts + [d], debtors[k].name)
    {
      PaidAppend(debts, d, debtors[k].name);
      assert k != j ==> NameOf(debtors[k]) != NameOf(debtors[j]);
    }
  }

  /** The payment chosen by the loop follows the greedy rule. */
  lemma StepGreedy(creditors: seq<Entry>, debtors: seq<Entry>, credit: seq<real>, debit: seq<real>,
                   debts: seq<Debt>, i: nat, j: nat)
    requires Tracks(creditors, debtors, credit, debit, debts) && GreedyAmounts(creditors, debtors, debts)
    requires DistinctBy(creditors, NameOf) && DistinctBy(debtors, NameOf)
    requires i < |creditors| && j < |debtors| && debit[j] <= 0.0
    ensures GreedyAmounts(creditors, debtors,
      debts + [Debt(debtors[j].name, creditors[i].name, Min(credit[i], Abs(debit[j])))])
  {
    var d := Debt(debtors[j].name, creditors[i].name, Min(credit[i], Abs(debit[j])));
    var next := debts + [d];
    AmountOfAt(creditors, i);
    AmountOfAt(debtors, j);
    assert next[..|debts|] == debts;
    forall k | 0 <= k < |debts| ensures next[..k] == debts[..k] && next[k] == debts[k] {
    }
  }

  /** The second components of the entry pairs. */
  function Amounts(es: seq<Entry>): (r: seq<real>)
    ensures |r| == |es| && forall k | 0 <= k < |es| :: r[k] == es[k].amount
  {
    seq(|es|, k requires 0 <= k < |es| => es[k].amount)
  }

  /** Where the two lists and pointers stand between rounds of the matching. */
  datatype Round = Round(credit: seq<real>, debit: seq<real>, i: int, j: int)

  /**
   * One round: the debtor at `j` pays the creditor at `i` the smaller of what
   * each has left, and a pointer moves on once its side is within the
   * tolerance of zero.
   */
  function NextRound(credit: seq<real>, debit: seq<real>, i: int, j: int): (r: Round)
    requires 0 <= i < |credit| && 0 <= j < |debit|
    ensures |r.credit| == |credit| && |r.debit| == |debit|
  {
    var amount := Min(credit[i], Abs(debit[j]));
    var c, d := credit[i := credit[i] - amount], debit[j := debit[j] + amount];
    Round(c, d, if c[i] < Tolerance then i + 1 else i, if Abs(d[j]) < Tolerance then j + 1 else j)
  }

  /**
   * The greedy matching as a value: the debts `paid` so far, followed by one
   * debt per round until one of the lists is used up.
   */
  function Greedy(creditors: seq<Entry>, debtors: seq<Entry>, credit: seq<real>, debit: seq<real>,
                  i: int, j: int, paid: seq<Debt>): seq<Debt>
    requires |credit| == |creditors| && |debit| == |debtors| && Pointers(credit, debit, i, j)
    decreases |credit| + |debit| - i - j
  {
    if i == |credit| || j == |debit| then paid
    else
      var r := NextRound(credit, debit, i, j);
      StepPointers(credit, debit, i, j);
      Greedy(creditors, debtors, r.credit, r.debit, r.i, r.j,
             paid + [Debt(debtors[j].name, creditors[i].name, Min(credit[i], Abs(debit[j])))])
  }

  /** One round of the loop leaves a state from which the matching gives the same debts. */
  lemma GreedyStep(creditors: seq<Entry>, debtors: seq<Entry>, credit: seq<real>, debit: seq<real>,
                   debts: seq<Debt>, i: int, j: int, r: Round, debts': seq<Debt>)
    requires |credit| == |creditors| && |debit| == |debtors| && Pointers(credit, debit, i, j)
    requires i < |credit| && j < |debit|
    requires r == NextRound(credit, debit, i, j)
    requires debts' == debts + [Debt(debtors[j].name, creditors[i].name, Min(credit[i], Abs(debit[j])))]
    ensures Pointers(r.credit, r.debit, r.i, r.j)
    ensures Greedy(creditors, debtors, r.credit, r.debit, r.i, r.j, debts') ==
            Greedy(creditors, debtors, credit, debit, i, j, debts)
  {
    StepPointers(credit, debit, i, j);
  }

  /** The payments the matching suggests, starting from the first creditor and the first debtor. */
  function Plan(creditors: seq<Entry>, debtors: seq<Entry>): seq<Debt>
    requires forall c | c in creditors :: c.amount > Tolerance
    requires forall d | d in debtors :: d.amount < -Tolerance
  {
    var credit, debit := Amounts(creditors), Amounts(debtors);
    assert Pointers(credit, debit, 0, 0) by {
      forall k | 0 <= k < |credit| ensures credit[k] >= Tolerance {
        assert creditors[k] in creditors;
      }
      forall k | 0 <= k < |debit| ensures debit[k] <= -Tolerance {
        assert debtors[k] in debtors;
      }
    }
    Greedy(creditors, debtors, credit, debit, 0, 0, [])
  }

  /**
   * The two-pointer loop of `getDebts`. `credit` and `debit` are the second
   * components of the entry lists, which the page decrements and increments
   * in place.
   */
  method Settle(creditors: seq<Entry>, debtors: seq<Entry>) returns (debts: seq<Debt>)
    requires forall c | c in creditors :: c.amount > Tolerance
    requires forall d | d in debtors :: d.amount < -Tolerance
    requires DistinctBy(creditors, NameOf) && DistinctBy(debtors, NameOf)
    ensures Matched(creditors, debtors, debts)
    ensures GreedyAmounts(creditors, debtors, debts)
    ensures forall c | c in creditors :: PaidTo(debts, c.name) <= c.amount
    ensures forall d | d in debtors :: PaidBy(debts, d.name) <= -d.amount
    ensures || (forall c | c in creditors :: c.amount - PaidTo(debts, c.name) < Tolerance)
            || (forall d | d in debtors :: -d.amount - PaidBy(debts, d.name) < Tolerance)
    ensures debts == [] || |debts| < |creditors| + |debtors|
    ensures debts == Plan(creditors, debtors)
  {
    var credit := Amounts(creditors);
    var debit := Amounts(debtors);
    debts := [];
    var i, j := 0, 0;
    while i < |credit| && j < |debit|
      invariant Settling(creditors, debtors, credit, debit, debts, i, j)
      invariant Greedy(creditors, debtors, credit, debit, i, j, debts) == Plan(creditors, debtors)
      decreases |credit| + |debit| - i - j
    {
      var credit', debit', debts', i', j' := Pay(creditors, debtors, credit, debit, debts, i, j);
      GreedyStep(creditors, debtors, credit, debit, debts, i, j, Round(credit', debit', i', j'), debts');
      credit, debit, debts, i, j := credit', debit', debts', i', j';
    }
    SettleDone(creditors, debtors, credit, debit, debts, i, j);
    assert debts != [] ==> |debts| < |creditors| + |debtors|;
  }

  /**
   * One round of the loop: the current debtor pays the current creditor the
   * smaller of what each has left, and each pointer moves on once its side
   * is within the tolerance of zero.
   */
  method Pay(creditors: seq<Entry>, debtors: seq<Entry>, credit: seq<real>, debit: seq<real>,
             debts: seq<Debt>, i: int, j: int)
    returns (credit': seq<real>, debit': seq<real>, debts': seq<Debt>, i': int, j': int)
    requires Settling(creditors, debtors, credit, debit, debts, i, j) && i < |credit| && j < |debit|
    ensures var amount := Min(credit[i], Abs(debit[j]));
      && credit' == credit[i := credit[i] - amount] && debit' == debit[j := debit[j] + amount]
      && debts' == debts + [Debt(debtors[j].name, creditors[i].name, amount)]
      && i' == (if credit'[i] < Tolerance then i + 1 else i)
      && j' == (if Abs(debit'[j]) < Tolerance then j + 1 else j)
    ensures Round(credit', debit', i', j') == NextRound(credit, debit, i, j)
    ensures Settling(creditors, debtors, credit', debit', debts', i', j')
    ensures i + j < i' + j'
  {
    var creditor, creditAmount := creditors[i].name, credit[i];
    var debtor, debtAmount := debtors[j].name, debit[j];
    var amount := Min(creditAmount, Abs(debtAmount));
    debts' := debts + [Debt(debtor, creditor, amount)];
    credit' := credit[i := credit[i] - amount];
    debit' := debit[j := debit[j] + amount];
    i', j' := i, j;
    if credit'[i] < Tolerance {
      i' := i + 1;
    }
    if Abs(debit'[j]) < Tolerance {
      j' := j + 1;
    }
    SettleStep(creditors, debtors, credit, debit, debts, i, j, credit', debit', debts', i', j');
  }

  /** The loop invariant of Settle. */
  ghost predicate Settling(creditors: seq<Entry>, debtors: seq<Entry>, credit: seq<real>, debit: seq<real>,
                           debts: seq<Debt>, i: int, j: int) {
    && DistinctBy(creditors, NameOf) && DistinctBy(debtors, NameOf)
    && Tracks(creditors, debtors, credit, debit, debts)
    && Pointers(credit, debit, i, j)
    && Matched(creditors, debtors, debts)
    && GreedyAmounts(creditors, debtors, debts)
    && |debts| <= i + j
    && (debts != [] && i == |credit| && j == |debit| ==> |debts| < i + j)
  }

  /** One iteration of the loop keeps its invariant and moves at least one pointer. */
  lemma SettleStep(creditors: seq<Entry>, debtors: seq<Entry>, credit: seq<real>, debit: seq<real>,
                   debts: seq<Debt>, i: nat, j: nat,
                   credit': seq<real>, debit': seq<real>, debts': seq<Debt>, i': nat, j': nat)
    requires Settling(creditors, debtors, credit, debit, debts, i, j) && i < |credit| && j < |debit|
    requires var amount := Min(credit[i], Abs(debit[j]));
      && credit' == credit[i := credit[i] - amount] && debit' == debit[j := debit[j] + amount]
      && debts' == debts + [Debt(debtors[j].name, creditors[i].name, amount)]
      && i' == (if credit'[i] < Tolerance then i + 1 else i)
      && j' == (if Abs(debit'[j]) < Tolerance then j + 1 else j)
    ensures Settling(creditors, debtors, credit', debit', debts', i', j')
    ensures i + j < i' + j'
  {
    var amount := Min(credit[i], Abs(debit[j]));
    StepTracks(creditors, debtors, credit, debit, debts, i, j, amount);
    StepGreedy(creditors, debtors, credit, debit, debts, i, j);
    StepPointers(credit, debit, i, j);
    StepMatched(creditors, debtors, debts, i, j, amount);
  }

  lemma StepMatched(creditors: seq<Entry>, debtors: seq<Entry>, debts: seq<Debt>, i: nat, j: nat, amount: real)
    requires Matched(creditors, debtors, debts)
    requires i < |creditors| && j < |debtors| && amount >= Tolerance
    ensures Matched(creditors, debtors, debts + [Debt(debtors[j].name, creditors[i].name, amount)])
  {
    var next := debts + [Debt(debtors[j].name, creditors[i].name, amount)];
    assert Names(creditors)[i] == creditors[i].name && Names(debtors)[j] == debtors[j].name;
    forall k | 0 <= k < |next|
      ensures next[k].to in Names(creditors) && next[k].from in Names(debtors) && next[k].amount >= Tolerance
    {
      if k < |debts| {
        assert next[k] == debts[k];
      }
    }
  }

  /** After one payment at least one pointer has moved on, and the pointer invariant still holds. */
  lemma StepPointers(credit: seq<real>, debit: seq<real>, i: nat, j: nat)
    requires Pointers(credit, debit, i, j) && i < |credit| && j < |debit|
    ensures var amount := Min(credit[i], Abs(debit[j]));
      var c, d := credit[i := credit[i] - amount], debit[j := debit[j] + amount];
      var i1 := if c[i] < Tolerance then i + 1 else i;
      var j1 := if Abs(d[j]) < Tolerance then j + 1 else j;
      amount >= Tolerance && Pointers(c, d, i1, j1) && i + j < i1 + j1
  {
  }

  /** When either list is used up: nobody was overpaid, and one side is settled to within the tolerance. */
  lemma SettleDone(creditors: seq<Entry>, debtors: seq<Entry>, credit: seq<real>, debit: seq<real>,
                   debts: seq<Debt>, i: nat, j: nat)
    requires Tracks(creditors, debtors, credit, debit, debts) && Pointers(credit, debit, i, j)
    requires i == |credit| || j == |debit|
    ensures forall c | c in creditors :: PaidTo(debts, c.name) <= c.amount
    ensures forall d | d in debtors :: PaidBy(debts, d.name) <= -d.amount
    ensures || (forall c | c in creditors :: c.amount - PaidTo(debts, c.name) < Tolerance)
            || (forall d | d in debtors :: -d.amount - PaidBy(debts, d.name) < Tolerance)
  {
    forall c | c in creditors ensures PaidTo(debts, c.name) <= c.amount {
      var k :| 0 <= k < |creditors| && creditors[k] == c;
      assert credit[k] >= 0.0;
    }
    forall d | d in debtors ensures PaidBy(debts, d.name) <= -d.amount {
      var k :| 0 <= k < |debtors| && debtors[k] == d;
      assert debit[k] <= 0.0;
    }
    if i == |credit| {
      forall c | c in creditors ensures c.amount - PaidTo(debts, c.name) < Tolerance {
        var k :| 0 <= k < |creditors| && creditors[k] == c;
        assert credit[k] < Tolerance;
      }
    } else {
      forall d | d in debtors ensures -d.amount - PaidBy(debts, d.name) < Tolerance {
        var k :| 0 <= k < |debtors| && debtors[k] == d;
        assert debit[k] > -Tolerance;
      }
    }
  }

  /** The payments `getDebts` suggests for the balances `b`, whose keys are listed in the order `keys`. */
  function DebtPlan(b: Balances, keys: seq<Email>): seq<Debt>
    requires Distinct(keys) && forall k | k in keys :: k in b
  {
    CreditorsAndDebtors(b, keys);
    Plan(Creditors(b, keys), Debtors(b, keys))
  }

  /**
   * `getDebts`: balances, the filtered and sorted creditor and debtor lists,
   * then the two-pointer matching.
   */
  method GetDebts(members: seq<Email>, expenses: seq<Expense>, settlements: seq<Settlement>)
    returns (debts: seq<Debt>)
    requires AllMembers(members, expenses, settlements)
    ensures var b := Balance(members, expenses, settlements);
      forall k | 0 <= k < |debts| ::
        && debts[k].to in b && b[debts[k].to] > Tolerance
        && debts[k].from in b && b[debts[k].from] < -Tolerance
        && debts[k].amount >= Tolerance
    ensures var b, keys := Balance(members, expenses, settlements), KeyOrder(members);
      GreedyAmounts(Creditors(b, keys), Debtors(b, keys), debts)
    ensures var b := Balance(members, expenses, settlements);
      forall p | p in members ::
        && PaidTo(debts, p) <= (if b[p] > Tolerance then b[p] else 0.0)
        && PaidBy(debts, p) <= (if b[p] < -Tolerance then -b[p] else 0.0)
    ensures var b := Balance(members, expenses, settlements);
      || (forall p | p in members && b[p] > Tolerance :: b[p] - PaidTo(debts, p) < Tolerance)
      || (forall p | p in members && b[p] < -Tolerance :: -b[p] - PaidBy(debts, p) < Tolerance)
    ensures debts == DebtPlan(Balance(members, expenses, settlements), KeyOrder(members))
    ensures var b := Balance(members, expenses, settlements);
      forall p | p in members ::
        -Tolerance * (|members| as real) <= AfterPaying(b, debts)[p] <= Tolerance * (|members| as real)
  {
    var balances := CalculateBalances(members, expenses, settlements);
    var keys := KeyOrder(members);
    var creditors := Creditors(balances, keys);
    var debtors := Debtors(balances, keys);
    CreditorsAndDebtors(balances, keys);
    debts := Settle(creditors, debtors);
    DebtsRunBetweenMembers(balances, members, debts);
    NobodyOverpaid(balances, members, debts);
    OneSideSettled(balances, members, debts);
    BalancesSumToZero(members, expenses, settlements);
    PayingEvensOut(balances, members, debts);
  }

  /** Every debt of getDebts runs from someone in debt to someone in credit, both beyond the tolerance. */
  lemma DebtsRunBetweenMembers(b: Balances, members: seq<Email>, debts: seq<Debt>)
    requires b.Keys == set m | m in members
    requires var keys := KeyOrder(members); Matched(Creditors(b, keys), Debtors(b, keys), debts)
    ensures forall k | 0 <= k < |debts| ::
      && debts[k].to in b && b[debts[k].to] > Tolerance
      && debts[k].from in b && b[debts[k].from] < -Tolerance
      && debts[k].amount >= Tolerance
  {
    var keys := KeyOrder(members);
    var creditors, debtors := Creditors(b, keys), Debtors(b, keys);
    SelectionSound(b, keys, IsCreditor, CreditorOrder);
    SelectionSound(b, keys, IsDebtor, DebtorOrder);
    forall k | 0 <= k < |debts|
      ensures debts[k].to in b && b[debts[k].to] > Tolerance
      ensures debts[k].from in b && b[debts[k].from] < -Tolerance
    {
      var c := EntryNamed(creditors, debts[k].to);
      var d := EntryNamed(debtors, debts[k].from);
    }
  }

  /** A name on the list of an entry list belongs to one of its entries. */
  lemma EntryNamed(es: seq<Entry>, name: Email) returns (e: Entry)
    requires name in Names(es)
    ensures e in es && e.name == name
  {
    var k :| 0 <= k < |es| && Names(es)[k] == name;
    e := es[k];
  }

  /** Nobody is paid more than they are owed, and nobody pays more than they owe. */
  lemma NobodyOverpaid(b: Balances, members: seq<Email>, debts: seq<Debt>)
    requires b.Keys == set m | m in members
    requires var keys := KeyOrder(members);
      && Matched(Creditors(b, keys), Debtors(b, keys), debts)
      && (forall c | c in Creditors(b, keys) :: PaidTo(debts, c.name) <= c.amount)
      && (forall d | d in Debtors(b, keys) :: PaidBy(debts, d.name) <= -d.amount)
    ensures forall p | p in members ::
      && PaidTo(debts, p) <= (if b[p] > Tolerance then b[p] else 0.0)
      && PaidBy(debts, p) <= (if b[p] < -Tolerance then -b[p] else 0.0)
  {
    NobodyOverpaidTo(b, members, debts);
    NobodyOverpaidBy(b, members, debts);
  }

  lemma NobodyOverpaidTo(b: Balances, members: seq<Email>, debts: seq<Debt>)
    requires b.Keys == set m | m in members
    requires var keys := KeyOrder(members);
      && Matched(Creditors(b, keys), Debtors(b, keys), debts)
      && (forall c | c in Creditors(b, keys) :: PaidTo(debts, c.name) <= c.amount)
    ensures forall p | p in members :: PaidTo(debts, p) <= (if b[p] > Tolerance then b[p] else 0.0)
  {
    var keys := KeyOrder(members);
    var creditors := Creditors(b, keys);
    SelectionSound(b, keys, IsCreditor, CreditorOrder);
    SelectionComplete(b, keys, IsCreditor, CreditorOrder);
    forall p | p in members ensures PaidTo(debts, p) <= (if b[p] > Tolerance then b[p] else 0.0) {
      assert p in keys;
      if b[p] > Tolerance {
        assert Entry(p, b[p]) in creditors;
      } else {
        forall k | 0 <= k < |debts| ensures debts[k].to != p {
          var ci :| 0 <= ci < |creditors| && Names(creditors)[ci] == debts[k].to;
          assert creditors[ci] in creditors;
        }
        NeverPaidTo(debts, p);
      }
    }
  }

  lemma NobodyOverpaidBy(b: Balances, members: seq<Email>, debts: seq<Debt>)
    requires b.Keys == set m | m in members
    requires var keys := KeyOrder(members);
      && Matched(Creditors(b, keys), Debtors(b, keys), debts)
      && (forall d | d in Debtors(b, keys) :: PaidBy(debts, d.name) <= -d.amount)
    ensures forall p | p in members :: PaidBy(debts, p) <= (if b[p] < -Tolerance then -b[p] else 0.0)
  {
    var keys := KeyOrder(members);
    var debtors := Debtors(b, keys);
    SelectionSound(b, keys, IsDebtor, DebtorOrder);
    SelectionComplete(b, keys, IsDebtor, DebtorOrder);
    forall p | p in members ensures PaidBy(debts, p) <= (if b[p] < -Tolerance then -b[p] else 0.0) {
      assert p in keys;
      if b[p] < -Tolerance {
        assert Entry(p, b[p]) in debtors;
      } else {
        forall k | 0 <= k < |debts| ensures debts[k].from != p {
          var di :| 0 <= di < |debtors| && Names(debtors)[di] == debts[k].from;
          assert debtors[di] in debtors;
        }
        NeverPaidBy(debts, p);
      }
    }
  }

  /** When the loop stops, every creditor or every debtor is settled to within the tolerance. */
  lemma OneSideSettled(b: Balances, members: seq<Email>, debts: seq<Debt>)
    requires b.Keys == set m | m in members
    requires var keys := KeyOrder(members);
      || (forall c | c in Creditors(b, keys) :: c.amount - PaidTo(debts, c.name) < Tolerance)
      || (forall d | d in Debtors(b, keys) :: -d.amount - PaidBy(debts, d.name) < Tolerance)
    ensures
      || (forall p | p in members && b[p] > Tolerance :: b[p] - PaidTo(debts, p) < Tolerance)
      || (forall p | p in members && b[p] < -Tolerance :: -b[p] - PaidBy(debts, p) < Tolerance)
  {
    var keys := KeyOrder(members);
    var creditors, debtors := Creditors(b, keys), Debtors(b, keys);
    SelectionComplete(b, keys, IsCreditor, CreditorOrder);
    SelectionComplete(b, keys, IsDebtor, DebtorOrder);
    if forall c | c in creditors :: c.amount - PaidTo(debts, c.name) < Tolerance {
      forall p | p in members && b[p] > Tolerance
        ensures b[p] - PaidTo(debts, p) < Tolerance
      {
        assert p in keys;
        assert Entry(p, b[p]) in creditors;
      }
    } else {
      forall p | p in members && b[p] < -Tolerance
        ensures -b[p] - PaidBy(debts, p) < Tolerance
      {
        assert p in keys;
        assert Entry(p, b[p]) in debtors;
      }
    }
  }

  // ---------------------------------------------------------------------------
  // A worked example
  // ---------------------------------------------------------------------------

  /** A pays 90 for a dinner shared by A, B and C. */
  function Dinner(): Expense {
    Expense(1, "Middag", 90.0, "A", ["A", "B", "C"], "2024-01-01")
  }

  /** The three shares of 30, charged in turn: A's own share changes nothing. */
  lemma DinnerShares()
    ensures ApplyShares(Zero(["A", "B", "C"]), "A", 30.0, ["A", "B", "C"]) == DinnerBalance()
  {
    var split := ["A", "B", "C"];
    assert split[..2] == ["A", "B"];
    DinnerFirstShares();
  }

  /** After A's own listing and B's share: A is 30 up and B 30 down. */
  lemma DinnerFirstShares()
    ensures ApplyShares(Zero(["A", "B", "C"]), "A", 30.0, ["A", "B"]) ==
            map["A" := 30.0, "B" := -30.0, "C" := 0.0]
  {
    var z := Zero(["A", "B", "C"]);
    assert z == map["A" := 0.0, "B" := 0.0, "C" := 0.0];
    var split := ["A", "B"];
    assert split[..1] == ["A"] && split[..1][..0] == [];
    assert ApplyShares(z, "A", 30.0, ["A"]) == z;
  }

  /** The dinner leaves A 60 in credit and B and C each 30 in debt. */
  lemma DinnerBalances()
    ensures Balance(["A", "B", "C"], [Dinner()], []) == DinnerBalance()
  {
    var e := Dinner();
    assert Share(e) == 30.0;
    DinnerShares();
    assert [e][..0] == [];
  }

  function DinnerBalance(): Balances {
    map["A" := 60.0, "B" := -30.0, "C" := -30.0]
  }

  /** `Object.entries` of the dinner's balances. */
  lemma DinnerEntries()
    ensures Entries(DinnerBalance(), ["A", "B", "C"]) == [Entry("A", 60.0), Entry("B", -30.0), Entry("C", -30.0)]
  {
  }

  /** A alone is owed. */
  lemma DinnerCreditors()
    ensures Creditors(DinnerBalance(), ["A", "B", "C"]) == [Entry("A", 60.0)]
  {
    var a, bb, c := Entry("A", 60.0), Entry("B", -30.0), Entry("C", -30.0);
    var es := [a, bb, c];
    DinnerEntries();
    assert es[..2] == [a, bb] && es[..2][..1] == [a] && es[..2][..1][..0] == [];
    assert Filter([a, bb], IsCreditor) == [a];
    assert Filter(es, IsCreditor) == [a];
    assert [a][1..] == [];
    assert SortBy([a], CreditorOrder) == [a];
  }

  /** B and C owe, B first: equal debts keep the member order. */
  lemma DinnerDebtors()
    ensures Debtors(DinnerBalance(), ["A", "B", "C"]) == [Entry("B", -30.0), Entry("C", -30.0)]
  {
    DinnerEntries();
    DinnerDebtorsKept();
    DinnerDebtorsSorted();
  }

  lemma DinnerDebtorsKept()
    ensures Filter([Entry("A", 60.0), Entry("B", -30.0), Entry("C", -30.0)], IsDebtor) ==
            [Entry("B", -30.0), Entry("C", -30.0)]
  {
    var a, bb, c := Entry("A", 60.0), Entry("B", -30.0), Entry("C", -30.0);
    var es := [a, bb, c];
    assert es[..2] == [a, bb] && es[..2][..1] == [a] && es[..2][..1][..0] == [];
    assert Filter([a, bb], IsDebtor) == [bb];
  }

  /** The sort keeps two equal debts in list order. */
  lemma DinnerDebtorsSorted()
    ensures SortBy([Entry("B", -30.0), Entry("C", -30.0)], DebtorOrder) ==
            [Entry("B", -30.0), Entry("C", -30.0)]
  {
    var bb, c := Entry("B", -30.0), Entry("C", -30.0);
    assert [bb, c][1..] == [c] && [c][1..] == [];
    assert SortBy([c], DebtorOrder) == [c];
    assert SortBy([bb, c], DebtorOrder) == Insert(bb, [c], DebtorOrder) == [bb, c];
  }

  /** The matching for one creditor of 60 and two debtors of 30. */
  lemma DinnerMatching()
    ensures Plan([Entry("A", 60.0)], [Entry("B", -30.0), Entry("C", -30.0)]) ==
            [Debt("B", "A", 30.0), Debt("C", "A", 30.0)]
  {
    var creditors := [Entry("A", 60.0)];
    var debtors := [Entry("B", -30.0), Entry("C", -30.0)];
    assert Amounts(creditors) == [60.0] && Amounts(debtors) == [-30.0, -30.0];
    assert [60.0][0 := 60.0 - 30.0] == [30.0] && [-30.0, -30.0][0 := -30.0 + 30.0] == [0.0, -30.0];
    assert [30.0][0 := 30.0 - 30.0] == [0.0] && [0.0, -30.0][1 := -30.0 + 30.0] == [0.0, 0.0];
    var b, c := Debt("B", "A", 30.0), Debt("C", "A", 30.0);
    assert [] + [b] == [b] && [b] + [c] == [b, c];
    assert Greedy(creditors, debtors, [0.0], [0.0, 0.0], 1, 2, [b, c]) == [b, c];
    assert Greedy(creditors, debtors, [30.0], [0.0, -30.0], 0, 1, [b]) == [b, c];
    assert Greedy(creditors, debtors, [60.0], [-30.0, -30.0], 0, 0, []) == [b, c];
  }

  lemma DinnerKeys()
    ensures KeyOrder(["A", "B", "C"]) == ["A", "B", "C"]
  {
    var members := ["A", "B", "C"];
    assert members[..2] == ["A", "B"] && members[..2][..1] == ["A"] && members[..2][..1][..0] == [];
    assert KeyOrder(["A"]) == ["A"];
    assert KeyOrder(["A", "B"]) == ["A", "B"];
  }

  /** The matching of the dinner's balances. */
  lemma DinnerBalancePlan()
    ensures DebtPlan(DinnerBalance(), ["A", "B", "C"]) == [Debt("B", "A", 30.0), Debt("C", "A", 30.0)]
  {
    DinnerCreditors();
    DinnerDebtors();
    DinnerMatching();
  }

  /** B and C each pay A 30, B first. */
  lemma DinnerPlan()
    ensures DebtPlan(Balance(["A", "B", "C"], [Dinner()], []), KeyOrder(["A", "B", "C"])) ==
            [Debt("B", "A", 30.0), Debt("C", "A", 30.0)]
  {
    DinnerBalances();
    DinnerKeys();
    DinnerBalancePlan();
  }

  /** `getDebts` for the dinner: B pays A 30, then C pays A 30. */
  method DinnerDebts() returns (debts: seq<Debt>)
    ensures debts == [Debt("B", "A", 30.0), Debt("C", "A", 30.0)]
  {
    debts := GetDebts(["A", "B", "C"], [Dinner()], []);
    DinnerPlan();
  }

  // ---------------------------------------------------------------------------
  // Paying the suggested debts
  // ---------------------------------------------------------------------------

  /** Each suggested payment recorded as a settlement, as the settlement form records one. */
  function Payments(debts: seq<Debt>): (ss: seq<Settlement>)
    ensures |ss| == |debts|
    ensures forall k | 0 <= k < |debts| ::
      ss[k].fromUser == debts[k].from && ss[k].toUser == debts[k].to && ss[k].amount == debts[k].amount
  {
    seq(|debts|, k requires 0 <= k < |debts| => Settlement(0, debts[k].from, debts[k].to, debts[k].amount, ""))
  }

  /** The balances once every suggested payment has been made and recorded. */
  function AfterPaying(b: Balances, debts: seq<Debt>): (r: Balances)
    requires forall k | 0 <= k < |debts| :: debts[k].from in b && debts[k].to in b
    ensures r.Keys == b.Keys
  {
    var ss := Payments(debts);
    assert forall s | s in ss :: s.fromUser in b && s.toUser in b by {
      forall s | s in ss ensures s.fromUser in b && s.toUser in b {
        var k :| 0 <= k < |ss| && ss[k] == s;
      }
    }
    ApplySettlements(b, ss)
  }

  /** Paying the debts moves each balance up by what the person paid and down by what they received. */
  lemma {:induction false} AfterPayingEffect(b: Balances, debts: seq<Debt>, q: Email)
    requires forall k | 0 <= k < |debts| :: debts[k].from in b && debts[k].to in b
    requires q in b
    ensures AfterPaying(b, debts)[q] == b[q] + PaidBy(debts, q) - PaidTo(debts, q)
  {
    if debts != [] {
      var n := |debts|;
      var init := debts[..n - 1];
      AfterPayingEffect(b, init, q);
      assert Payments(debts)[..n - 1] == Payments(init);
      assert AfterPaying(b, debts) == ApplySettlement(AfterPaying(b, init), Payments(debts)[n - 1]);
    }
  }

  lemma {:induction false} PaidNonNegative(debts: seq<Debt>, name: Email)
    requires forall k | 0 <= k < |debts| :: debts[k].amount >= 0.0
    ensures PaidTo(debts, name) >= 0.0 && PaidBy(debts, name) >= 0.0
  {
    if debts != [] {
      PaidNonNegative(debts[..|debts| - 1], name);
    }
  }

  lemma {:induction false} TimesMonotone(u: real, m: int, n: int)
    requires u >= 0.0 && 0 <= m <= n
    ensures Times(u, m) <= Times(u, n)
    decreases n
  {
    if m < n {
      TimesMonotone(u, m, n - 1);
    }
  }

  /** A sum of terms each at most `u` is at most `u` per term. */
  lemma {:induction false} TotalAtMost(a: Balances, keys: seq<Email>, u: real)
    requires forall k | k in keys :: k in a && a[k] <= u
    ensures Total(a, keys) <= Times(u, |keys|)
  {
    if keys != [] {
      TotalAtMost(a, keys[1..], u);
    }
  }

  /** A sum of terms each at least `-u` is at least `-u` per term. */
  lemma {:induction false} TotalAtLeast(a: Balances, keys: seq<Email>, u: real)
    requires forall k | k in keys :: k in a && a[k] >= -u
    ensures Total(a, keys) >= -Times(u, |keys|)
  {
    if keys != [] {
      TotalAtLeast(a, keys[1..], u);
    }
  }

  /** With every term at most `u`, the sum is at most one chosen term plus `u` for each of the others. */
  lemma {:induction false} TotalAtMostBeside(a: Balances, keys: seq<Email>, q: Email, u: real)
    requires Distinct(keys) && q in keys
    requires forall k | k in keys :: k in a && a[k] <= u
    ensures Total(a, keys) <= a[q] + Times(u, |keys| - 1)
  {
    if keys[0] == q {
      assert q !in keys[1..];
      TotalAtMost(a, keys[1..], u);
    } else {
      TotalAtMostBeside(a, keys[1..], q, u);
    }
  }

  /** With every term at least `-u`, the sum is at least one chosen term minus `u` for each of the others. */
  lemma {:induction false} TotalAtLeastBeside(a: Balances, keys: seq<Email>, q: Email, u: real)
    requires Distinct(keys) && q in keys
    requires forall k | k in keys :: k in a && a[k] >= -u
    ensures Total(a, keys) >= a[q] - Times(u, |keys| - 1)
  {
    if keys[0] == q {
      assert q !in keys[1..];
      TotalAtLeast(a, keys[1..], u);
    } else {
      TotalAtLeastBeside(a, keys[1..], q, u);
    }
  }

  /**
   * One member after the payments: a creditor has received at most their
   * credit, a debtor has paid at most their debt, anyone else is untouched.
   */
  lemma MemberAfterPaying(b: Balances, debts: seq<Debt>, p: Email)
    requires forall k | 0 <= k < |debts| ::
      debts[k].from in b && debts[k].to in b && debts[k].amount >= 0.0
    requires p in b
    requires PaidTo(debts, p) <= (if b[p] > Tolerance then b[p] else 0.0)
    requires PaidBy(debts, p) <= (if b[p] < -Tolerance then -b[p] else 0.0)
    ensures b[p] > Tolerance ==> 0.0 <= AfterPaying(b, debts)[p] == b[p] - PaidTo(debts, p)
    ensures b[p] < -Tolerance ==> 0.0 >= AfterPaying(b, debts)[p] == b[p] + PaidBy(debts, p)
    ensures -Tolerance <= b[p] <= Tolerance ==> AfterPaying(b, debts)[p] == b[p]
  {
    AfterPayingEffect(b, debts, p);
    PaidNonNegative(debts, p);
  }

  /** The predicate `PayingEvensOut` needs of the debts: what `getDebts` guarantees about them. */
  ghost predicate Settles(b: Balances, members: seq<Email>, debts: seq<Debt>)
    requires b.Keys == set m | m in members
  {
    && (forall k | 0 <= k < |debts| :: debts[k].from in b && debts[k].to in b && debts[k].amount >= 0.0)
    && (forall p | p in members ::
         && PaidTo(debts, p) <= (if b[p] > Tolerance then b[p] else 0.0)
         && PaidBy(debts, p) <= (if b[p] < -Tolerance then -b[p] else 0.0))
  }

  /** With the creditors settled, nobody is left more than a cent in credit. */
  lemma CreditorsSettledAfter(b: Balances, members: seq<Email>, debts: seq<Debt>)
    requires b.Keys == (set m | m in members) && Settles(b, members, debts)
    requires forall p | p in members && b[p] > Tolerance :: b[p] - PaidTo(debts, p) < Tolerance
    ensures forall p | p in KeyOrder(members) :: p in b && AfterPaying(b, debts)[p] <= Tolerance
  {
    forall p | p in KeyOrder(members) ensures AfterPaying(b, debts)[p] <= Tolerance {
      MemberAfterPaying(b, debts, p);
    }
  }

  /** With the debtors settled, nobody is left owing more than a cent. */
  lemma DebtorsSettledAfter(b: Balances, members: seq<Email>, debts: seq<Debt>)
    requires b.Keys == (set m | m in members) && Settles(b, members, debts)
    requires forall p | p in members && b[p] < -Tolerance :: -b[p] - PaidBy(debts, p) < Tolerance
    ensures forall p | p in KeyOrder(members) :: p in b && AfterPaying(b, debts)[p] >= -Tolerance
  {
    forall p | p in KeyOrder(members) ensures AfterPaying(b, debts)[p] >= -Tolerance {
      MemberAfterPaying(b, debts, p);
    }
  }

  /** Paying the debts keeps the balances summing to what they summed to. */
  lemma AfterPayingKeepsTotal(b: Balances, members: seq<Email>, debts: seq<Debt>)
    requires b.Keys == set m | m in members
    requires forall k | 0 <= k < |debts| :: debts[k].from in b && debts[k].to in b
    ensures Total(AfterPaying(b, debts), KeyOrder(members)) == Total(b, KeyOrder(members))
  {
    var ss := Payments(debts);
    forall s | s in ss ensures s.fromUser in b && s.toUser in b {
      var k :| 0 <= k < |ss| && ss[k] == s;
    }
    ApplySettlementsKeepsTotal(b, ss, KeyOrder(members));
  }

  /**
   * Once the suggested payments are made, every member is within a cent
   * per member of even. The settled side is within a cent each; since the
   * balances sum to zero, what the other side still has open is at most a
   * cent for each of the others.
   */
  lemma PayingEvensOut(b: Balances, members: seq<Email>, debts: seq<Debt>)
    requires b.Keys == set m | m in members
    requires Total(b, KeyOrder(members)) == 0.0
    requires Settles(b, members, debts)
    requires || (forall p | p in members && b[p] > Tolerance :: b[p] - PaidTo(debts, p) < Tolerance)
             || (forall p | p in members && b[p] < -Tolerance :: -b[p] - PaidBy(debts, p) < Tolerance)
    ensures forall p | p in members ::
      -Tolerance * (|members| as real) <= AfterPaying(b, debts)[p] <= Tolerance * (|members| as real)
  {
    TimesIsProduct(Tolerance, |members|);
    if forall p | p in members && b[p] > Tolerance :: b[p] - PaidTo(debts, p) < Tolerance {
      EvensOutFromCreditors(b, members, debts);
    } else {
      EvensOutFromDebtors(b, members, debts);
    }
  }

  lemma EvensOutFromCreditors(b: Balances, members: seq<Email>, debts: seq<Debt>)
    requires b.Keys == (set m | m in members) && Settles(b, members, debts)
    requires Total(b, KeyOrder(members)) == 0.0
    requires forall p | p in members && b[p] > Tolerance :: b[p] - PaidTo(debts, p) < Tolerance
    ensures forall q | q in members ::
      -Times(Tolerance, |members|) <= AfterPaying(b, debts)[q] <= Times(Tolerance, |members|)
  {
    AfterPayingKeepsTotal(b, members, debts);
    CreditorsSettledAfter(b, members, debts);
    forall q | q in members
      ensures -Times(Tolerance, |members|) <= AfterPaying(b, debts)[q] <= Times(Tolerance, |members|)
    {
      CentEachAbove(AfterPaying(b, debts), KeyOrder(members), |members|, q);
    }
  }

  lemma EvensOutFromDebtors(b: Balances, members: seq<Email>, debts: seq<Debt>)
    requires b.Keys == (set m | m in members) && Settles(b, members, debts)
    requires Total(b, KeyOrder(members)) == 0.0
    requires forall p | p in members && b[p] < -Tolerance :: -b[p] - PaidBy(debts, p) < Tolerance
    ensures forall q | q in members ::
      -Times(Tolerance, |members|) <= AfterPaying(b, debts)[q] <= Times(Tolerance, |members|)
  {
    AfterPayingKeepsTotal(b, members, debts);
    DebtorsSettledAfter(b, members, debts);
    forall q | q in members
      ensures -Times(Tolerance, |members|) <= AfterPaying(b, debts)[q] <= Times(Tolerance, |members|)
    {
      CentEachBelow(AfterPaying(b, debts), KeyOrder(members), |members|, q);
    }
  }

  /** Balances summing to zero, none above a cent: none is below minus a cent per other member either. */
  lemma CentEachAbove(a: Balances, keys: seq<Email>, n: nat, q: Email)
    requires Distinct(keys) && |keys| <= n && q in keys
    requires forall p | p in keys :: p in a && a[p] <= Tolerance
    requires Total(a, keys) == 0.0
    ensures -Times(Tolerance, n) <= a[q] <= Times(Tolerance, n)
  {
    TotalAtMostBeside(a, keys, q, Tolerance);
    TimesMonotone(Tolerance, |keys| - 1, n);
    TimesMonotone(Tolerance, 1, n);
  }

  /** Balances summing to zero, none below minus a cent: none is above a cent per other member either. */
  lemma CentEachBelow(a: Balances, keys: seq<Email>, n: nat, q: Email)
    requires Distinct(keys) && |keys| <= n && q in keys
    requires forall p | p in keys :: p in a && a[p] >= -Tolerance
    requires Total(a, keys) == 0.0
    ensures -Times(Tolerance, n) <= a[q] <= Times(Tolerance, n)
  {
    TotalAtLeastBeside(a, keys, q, Tolerance);
    TimesMonotone(Tolerance, |keys| - 1, n);
    TimesMonotone(Tolerance, 1, n);
  }

  // ---------------------------------------------------------------------------
  // The add-expense form
  // ---------------------------------------------------------------------------

  function Self(p: Email): Email { p }

  /** `toggleSplitPerson`: a listed person is removed (every occurrence), anyone else is appended. */
  function ToggleSplitPerson(split: seq<Email>, person: Email): (r: seq<Email>)
    ensures person in split ==> person !in r
    ensures person !in split ==> r == split + [person]
    ensures forall q | q != person :: multiset(r)[q] == multiset(split)[q]
  {
    if person in split then
      var r := Filter(split, (p: Email) => p != person);
      forall q | q != person ensures multiset(r)[q] == multiset(split)[q] {
        FilterCount(split, (p: Email) => p != person, q);
      }
      FilterCount(split, (p: Email) => p != person, person);
      r
    else
      split + [person]
  }

  /** Toggling twice gives back a split list without repeats. */
  lemma ToggleTwice(split: seq<Email>, person: Email)
    requires Distinct(split)
    ensures person !in split ==> ToggleSplitPerson(ToggleSplitPerson(split, person), person) == split
    ensures person in split ==>
      ToggleSplitPerson(ToggleSplitPerson(split, person), person) == Filter(split, (p: Email) => p != person) + [person]
  {
    if person !in split {
      var once := split + [person];
      var kept := Filter(once, (p: Email) => p != person);
      FilterAppend(split, [person], (p: Email) => p != person);
      assert Filter([person], (p: Email) => p != person) == [];
      assert split == Filter(split, (p: Email) => p != person);
    }
  }

  /** Toggling keeps the split list free of repeats, which the page relies on. */
  lemma ToggleKeepsDistinct(split: seq<Email>, person: Email)
    requires Distinct(split)
    ensures Distinct(ToggleSplitPerson(split, person))
  {
    if person in split {
      assert DistinctBy(split, Self);
      FilterKeepsDistinct(split, (p: Email) => p != person, Self);
    }
  }

  /** The add-expense form as the page holds it: every field is text except the split list. */
  datatype ExpenseForm = ExpenseForm(description: string, amount: string, paidBy: Email, splitBetween: seq<Email>)

  /** The guard of `handleAddExpense`: no empty field and at least one person to split between. */
  predicate FormComplete(f: ExpenseForm) {
    f.description != "" && f.amount != "" && f.paidBy != "" && |f.splitBetween| > 0
  }

  /**
   * `handleAddExpense`: an incomplete form leaves the list alone; otherwise the
   * expense is stored and the created record (with the id the server gives it)
   * goes to the front of the list. `parsed` is `parseFloat(amount)`.
   */
  function HandleAddExpense(expenses: seq<Expense>, f: ExpenseForm, parsed: real, date: string, id: int)
    : (r: seq<Expense>)
    ensures !FormComplete(f) ==> r == expenses
    ensures FormComplete(f) ==>
      && |r| == |expenses| + 1 && r[1..] == expenses
      && r[0] == Expense(id, f.description, parsed, f.paidBy, f.splitBetween, date)
  {
    if !FormComplete(f) then expenses
    else [Expense(id, f.description, parsed, f.paidBy, f.splitBetween, date)] + expenses
  }

  /** An expense the form lets through has participants, so its shares add up to the amount. */
  lemma AddedExpenseSharesAddUp(expenses: seq<Expense>, f: ExpenseForm, parsed: real, date: string, id: int)
    requires FormComplete(f)
    ensures var e := HandleAddExpense(expenses, f, parsed, date, id)[0];
      |e.splitBetween| > 0 && Share(e) * (|e.splitBetween| as real) == e.amount
  {
  }
}
