/** How accounts are admitted under plan allowances (`src/account_limits.rs`): oldest first, a greedy
    pass hands out balance slots and, among those, transaction-history slots. */
module AccountModes {
  import opened Basics
  import opened Sorting

  type AccountId = string

  /** Account identifiers are compared as they print. */
  datatype Account = Account(id: AccountId, admitted: Instant, balances: bool, history: bool)

  datatype Allowances = Allowances(balance: nat, history: nat)

  datatype Mode = Inactive | BalanceOnly | Transactions

  function Level(m: Mode): nat {
    match m
    case Inactive => 0
    case BalanceOnly => 1
    case Transactions => 2
  }

  function Seniority(r: Account): Key { Key(r.admitted, 0, r.id, "") }

  predicate Before(q: Account, r: Account) { KeyLess(Seniority(q), Seniority(r)) }

  // ----- the mode of an account, without any pass over the accounts -----

  function Supporting(records: set<Account>): set<Account> {
    set q | q in records && q.balances
  }

  function SupportingHistory(records: set<Account>): set<Account> {
    set q | q in records && q.balances && q.history
  }

  function Older(records: set<Account>, r: Account): set<Account> {
    set q | q in records && Before(q, r)
  }

  /** Accounts before this one decide alone: it is active if fewer of them than the allowance support
      balances, and syncs transactions if moreover fewer than that allowance support both. */
  function ModeOf(records: set<Account>, r: Account, a: Allowances): Mode {
    if !r.balances || |Supporting(Older(records, r))| >= a.balance then Inactive
    else if r.history && |SupportingHistory(Older(records, r))| < a.history then Transactions
    else BalanceOnly
  }

  function Elements(s: seq<Account>): set<Account> { set r | r in s }

  predicate DistinctIds(s: seq<Account>) {
    forall i, j :: 0 <= i < j < |s| ==> s[i].id != s[j].id
  }

  predicate DistinctAccounts(records: set<Account>) {
    forall q, r :: q in records && r in records && q.id == r.id ==> q == r
  }

  function Min(a: nat, b: nat): nat { if a < b then a else b }

  // ----- the greedy pass -----

  /** The oldest accounts of a list without repetitions. */
  lemma OlderInSorted(s: seq<Account>, i: nat)
    requires Sorted(s, Seniority) && DistinctIds(s) && i < |s|
    ensures Older(Elements(s), s[i]) == Elements(s[..i])
  {
    forall q ensures q in Older(Elements(s), s[i]) <==> q in Elements(s[..i]) {
      if q in Older(Elements(s), s[i]) {
        var j :| 0 <= j < |s| && s[j] == q;
        if j >= i {
          assert KeyLeq(Seniority(s[i]), Seniority(s[j]));
          KeyAntisymmetric(Seniority(s[i]), Seniority(s[j]));
        }
        assert s[..i][j] == q;
      }
      if q in Elements(s[..i]) {
        var j :| 0 <= j < i && s[..i][j] == q;
        assert s[j].id != s[i].id;
        assert KeyLeq(Seniority(s[j]), Seniority(s[i]));
      }
    }
  }

  lemma ElementsGrow(s: seq<Account>, i: nat)
    requires i < |s|
    ensures Elements(s[..i + 1]) == Elements(s[..i]) + {s[i]}
    ensures DistinctIds(s) ==> s[i] !in Elements(s[..i])
  {
    assert s[..i + 1] == s[..i] + [s[i]];
  }

  lemma SupportingGrows(records: set<Account>, r: Account)
    requires r !in records
    ensures |Supporting(records + {r})| == |Supporting(records)| + if r.balances then 1 else 0
    ensures |SupportingHistory(records + {r})| == |SupportingHistory(records)| + if r.balances && r.history then 1 else 0
  {
    assert Supporting(records + {r}) == if r.balances then Supporting(records) + {r} else Supporting(records);
    assert SupportingHistory(records + {r}) ==
           if r.balances && r.history then SupportingHistory(records) + {r} else SupportingHistory(records);
  }

  /** The counters once the accounts of `done` have been served.  The second count is only meaningful
      until the first is exhausted, and is not looked at afterwards. */
  ghost predicate Counters(done: set<Account>, a: Allowances, b: nat, h: nat) {
    && b == Min(a.balance, |Supporting(done)|)
    && (|Supporting(done)| <= a.balance ==> h == Min(a.history, |SupportingHistory(done)|))
  }

  /** Whether the pass gives the account a balance slot, and whether a history slot. */
  predicate TakesBalance(r: Account, a: Allowances, b: nat) { r.balances && b < a.balance }
  predicate TakesHistory(r: Account, a: Allowances, b: nat, h: nat) { TakesBalance(r, a, b) && r.history && h < a.history }

  lemma CountersStep(done: set<Account>, r: Account, a: Allowances, b: nat, h: nat)
    requires r !in done && Counters(done, a, b, h)
    ensures Counters(done + {r}, a, if TakesBalance(r, a, b) then b + 1 else b, if TakesHistory(r, a, b, h) then h + 1 else h)
  {
    hide Supporting, SupportingHistory;
    SupportingGrows(done, r);
  }

  lemma CountersDecide(records: set<Account>, r: Account, a: Allowances, b: nat, h: nat)
    requires Counters(Older(records, r), a, b, h)
    ensures ModeOf(records, r, a) ==
            if TakesHistory(r, a, b, h) then Transactions else if TakesBalance(r, a, b) then BalanceOnly else Inactive
  {
    hide Supporting, SupportingHistory, Older;
  }

  lemma PassStep(s: seq<Account>, i: nat, a: Allowances, b: nat, h: nat)
    requires Sorted(s, Seniority) && DistinctIds(s) && i < |s| && Counters(Elements(s[..i]), a, b, h)
    ensures ModeOf(Elements(s), s[i], a) ==
            if TakesHistory(s[i], a, b, h) then Transactions else if TakesBalance(s[i], a, b) then BalanceOnly else Inactive
    ensures Counters(Elements(s[..i + 1]), a, if TakesBalance(s[i], a, b) then b + 1 else b, if TakesHistory(s[i], a, b, h) then h + 1 else h)
  {
    hide Counters, ModeOf, Older, Elements;
    OlderInSorted(s, i);
    ElementsGrow(s, i);
    CountersDecide(Elements(s), s[i], a, b, h);
    CountersStep(Elements(s[..i]), s[i], a, b, h);
  }

  lemma SortedElements(records: seq<Account>)
    ensures var sorted := SortBy(records, Seniority);
            && Sorted(sorted, Seniority) && |sorted| == |records| && Elements(sorted) == Elements(records)
            && (DistinctIds(records) ==> DistinctIds(sorted))
  {
    var sorted := SortBy(records, Seniority);
    SortSorted(records, Seniority);
    SortContents(records, Seniority);
    forall r ensures r in sorted <==> r in records { SortMembers(records, Seniority, r); }
    if DistinctIds(records) {
      SortDistinct(records, Seniority);
      forall i, j | 0 <= i < j < |sorted| ensures sorted[i].id != sorted[j].id {
        assert sorted[i] != sorted[j] && sorted[i] in records && sorted[j] in records;
      }
    }
  }

  /** Admitted earlier, or at the same time with an identifier that comes first. */
  predicate SeniorTo(q: Account, r: Account) {
    q.admitted < r.admitted || (q.admitted == r.admitted && Precedes(q.id, r.id))
  }

  /** No account has a slot that a senior one lacks: a balance slot among the accounts that support
      balances, a history slot among those that support both. */
  ghost predicate OldestFirst(records: seq<Account>, modes: map<AccountId, Mode>)
    requires forall r :: r in records ==> r.id in modes
  {
    forall q, r :: q in records && r in records && SeniorTo(q, r) && q.balances ==>
      && (modes[r.id] != Inactive ==> modes[q.id] != Inactive)
      && (q.history && modes[r.id] == Transactions ==> modes[q.id] == Transactions)
  }

  lemma SeniorIsBefore(q: Account, r: Account)
    ensures SeniorTo(q, r) ==> Before(q, r)
  {
    KeyLessReads(Seniority(q), Seniority(r));
  }

  lemma SeniorKeepsSlot(records: set<Account>, q: Account, r: Account, a: Allowances)
    requires q in records && r in records && Before(q, r) && q.balances
    ensures ModeOf(records, r, a) != Inactive ==> ModeOf(records, q, a) != Inactive
    ensures q.history && ModeOf(records, r, a) == Transactions ==> ModeOf(records, q, a) == Transactions
  {
    var older, younger := Older(records, q), Older(records, r);
    forall p | p in older ensures p in younger { BeforeTransitive(p, q, r); }
    SubsetSize(Supporting(older), Supporting(younger));
    SubsetSize(SupportingHistory(older), SupportingHistory(younger));
  }

  lemma ModesAreOldestFirst(records: seq<Account>, modes: map<AccountId, Mode>, a: Allowances)
    requires forall r :: r in records ==> r.id in modes && modes[r.id] == ModeOf(Elements(records), r, a)
    ensures OldestFirst(records, modes)
  {
    hide ModeOf, Before, SeniorTo;
    forall q, r | q in records && r in records && SeniorTo(q, r) && q.balances
      ensures modes[r.id] != Inactive ==> modes[q.id] != Inactive
      ensures q.history && modes[r.id] == Transactions ==> modes[q.id] == Transactions
    {
      SeniorIsBefore(q, r);
      SeniorKeepsSlot(Elements(records), q, r, a);
    }
  }

  /** Distinct identifiers in, one mode per account out, the one that the accounts before it decide;
      the order of the input does not matter. */
  method ClassifyNativeAccountModes(records: seq<Account>, a: Allowances) returns (modes: map<AccountId, Mode>)
    ensures modes.Keys == set r | r in records :: r.id
    ensures DistinctIds(records) ==>
              forall r :: r in records ==> modes[r.id] == ModeOf(Elements(records), r, a)
    ensures DistinctIds(records) ==> OldestFirst(records, modes)
  {
    var sorted := SortBy(records, Seniority);
    SortedElements(records);
    hide Counters, ModeOf, SortBy, Sorted;
    modes := map[];
    var balanceCount, historyCount := 0, 0;
    NoneServed(sorted, a);
    for i := 0 to |sorted|
      invariant modes.Keys == set r | r in Elements(sorted[..i]) :: r.id
      invariant DistinctIds(sorted) ==> Counters(Elements(sorted[..i]), a, balanceCount, historyCount)
      invariant DistinctIds(sorted) ==>
                  forall j :: 0 <= j < i ==> sorted[j].id in modes && modes[sorted[j].id] == ModeOf(Elements(sorted), sorted[j], a)
    {
      var record := sorted[i];
      if DistinctIds(sorted) { PassStep(sorted, i, a, balanceCount, historyCount); }
      var mode;
      if !record.balances || balanceCount >= a.balance {
        mode := Inactive;
      } else {
        balanceCount := balanceCount + 1;
        if record.history && historyCount < a.history {
          historyCount := historyCount + 1;
          mode := Transactions;
        } else {
          mode := BalanceOnly;
        }
      }
      modes := modes[record.id := mode];
      ElementsGrow(sorted, i);
    }
    assert sorted[..|sorted|] == sorted;
    forall r | r in records ensures r in Elements(sorted) { assert r in Elements(records); }
    if DistinctIds(records) { ModesAreOldestFirst(records, modes, a); }
  }

  lemma NoneServed(s: seq<Account>, a: Allowances)
    ensures Counters(Elements(s[..0]), a, 0, 0)
  {
    assert Supporting(Elements(s[..0])) == {} && SupportingHistory(Elements(s[..0])) == {};
  }

  // ----- what the modes add up to -----

  function WithSlot(records: set<Account>, a: Allowances): set<Account> {
    set r | r in records && ModeOf(records, r, a) != Inactive
  }

  function WithHistory(records: set<Account>, a: Allowances): set<Account> {
    set r | r in records && ModeOf(records, r, a) == Transactions
  }

  lemma BeforeTransitive(p: Account, q: Account, r: Account)
    requires Before(p, q) && Before(q, r)
    ensures Before(p, r)
  {
    KeyTransitive(Seniority(p), Seniority(q), Seniority(r));
    if Seniority(p) == Seniority(r) { KeyAntisymmetric(Seniority(p), Seniority(q)); }
  }

  /** Different accounts are ordered. */
  lemma BeforeTotal(q: Account, r: Account)
    requires q.id != r.id
    ensures Before(q, r) || Before(r, q)
    ensures !(Before(q, r) && Before(r, q))
  {
    KeyTotal(Seniority(q), Seniority(r));
    if Before(q, r) && Before(r, q) { KeyAntisymmetric(Seniority(q), Seniority(r)); }
  }

  lemma {:induction false} Youngest(records: set<Account>) returns (m: Account)
    requires records != {} && DistinctAccounts(records)
    ensures m in records && forall q :: q in records && q != m ==> Before(q, m)
  {
    var x :| x in records;
    var rest := records - {x};
    assert forall q :: q in records ==> q == x || q in rest;
    m := x;
    if rest != {} {
      var y := Youngest(rest);
      BeforeTotal(x, y);
      if Before(x, y) {
        m := y;
      } else {
        forall q | q in rest ensures Before(q, x) {
          if q != y { BeforeTransitive(q, y, x); }
        }
      }
    }
  }

  /** The youngest account changes nobody else's mode, and everyone else comes before it. */
  lemma WithoutYoungest(records: set<Account>, m: Account, a: Allowances)
    requires m in records && forall q :: q in records && q != m ==> Before(q, m)
    ensures Older(records, m) == records - {m}
    ensures forall r :: r in records && r != m ==> ModeOf(records, r, a) == ModeOf(records - {m}, r, a)
  {
    forall r | r in records && r != m ensures Older(records, r) == Older(records - {m}, r) {
      if Before(m, r) { KeyAntisymmetric(Seniority(m), Seniority(r)); }
    }
  }

  lemma OneMore(before: set<Account>, after: set<Account>, m: Account, added: bool)
    requires m !in before && forall r :: r in after <==> r in before || (added && r == m)
    ensures |after| == |before| + if added then 1 else 0
    ensures after == if added then before + {m} else before
  {
    assert after == if added then before + {m} else before;
  }

  lemma SlotsGrow(records: set<Account>, m: Account, a: Allowances)
    requires m in records && forall q :: q in records && q != m ==> Before(q, m)
    ensures |WithSlot(records, a)| == |WithSlot(records - {m}, a)| + if ModeOf(records, m, a) != Inactive then 1 else 0
    ensures |WithHistory(records, a)| == |WithHistory(records - {m}, a)| + if ModeOf(records, m, a) == Transactions then 1 else 0
  {
    WithoutYoungest(records, m, a);
    hide ModeOf, Before, Older;
    var rest := records - {m};
    OneMore(WithSlot(rest, a), WithSlot(records, a), m, ModeOf(records, m, a) != Inactive);
    OneMore(WithHistory(rest, a), WithHistory(records, a), m, ModeOf(records, m, a) == Transactions);
  }

  /** Exactly as many accounts are active as there are balance slots or accounts to fill them. */
  lemma {:induction false} ActiveCount(records: set<Account>, a: Allowances)
    requires DistinctAccounts(records)
    ensures |WithSlot(records, a)| == Min(a.balance, |Supporting(records)|)
    decreases |records|
  {
    if records == {} {
      assert WithSlot(records, a) == {} && Supporting(records) == {};
    } else {
      var m := Youngest(records);
      var rest := records - {m};
      ActiveCount(rest, a);
      SlotsGrow(records, m, a);
      WithoutYoungest(records, m, a);
      hide WithSlot, WithHistory, Supporting, SupportingHistory, Older;
      SupportingGrows(rest, m);
      assert rest + {m} == records;
    }
  }

  function ActiveWithHistory(records: set<Account>, a: Allowances): set<Account> {
    set r | r in WithSlot(records, a) && r.history
  }

  /** No history slot is left unused while an active account could take it, and none is given twice. */
  lemma {:induction false} HistoryCount(records: set<Account>, a: Allowances)
    requires DistinctAccounts(records)
    ensures |WithHistory(records, a)| == Min(a.history, |ActiveWithHistory(records, a)|)
    ensures |Supporting(records)| <= a.balance ==> ActiveWithHistory(records, a) == SupportingHistory(records)
    decreases |records|
  {
    if records == {} {
      assert WithHistory(records, a) == {} && ActiveWithHistory(records, a) == {} && SupportingHistory(records) == {};
    } else {
      var m := Youngest(records);
      var rest := records - {m};
      HistoryCount(rest, a);
      SlotsGrow(records, m, a);
      WithoutYoungest(records, m, a);
      HistoryGrows(records, m, a);
      hide WithSlot, WithHistory, Supporting, SupportingHistory, Older, ActiveWithHistory;
      SupportingGrows(rest, m);
      assert rest + {m} == records;
    }
  }

  lemma HistoryGrows(records: set<Account>, m: Account, a: Allowances)
    requires m in records && forall q :: q in records && q != m ==> Before(q, m)
    ensures var rest := records - {m};
            && |ActiveWithHistory(records, a)| == |ActiveWithHistory(rest, a)| + (if ModeOf(records, m, a) != Inactive && m.history then 1 else 0)
            && (ActiveWithHistory(rest, a) == SupportingHistory(rest) && (m.balances ==> ModeOf(records, m, a) != Inactive) ==>
                  ActiveWithHistory(records, a) == SupportingHistory(records))
  {
    WithoutYoungest(records, m, a);
    hide ModeOf, Before, Older;
    var rest := records - {m};
    OneMore(ActiveWithHistory(rest, a), ActiveWithHistory(records, a), m, ModeOf(records, m, a) != Inactive && m.history);
    OneMore(SupportingHistory(rest), SupportingHistory(records), m, m.balances && m.history);
    InactiveWithoutBalances(records, m, a);
  }

  lemma InactiveWithoutBalances(records: set<Account>, r: Account, a: Allowances)
    ensures !r.balances ==> ModeOf(records, r, a) == Inactive
  {
  }

  // ----- nobody loses by a removal or a better plan -----

  lemma OlderShrinks(records: set<Account>, kept: set<Account>, r: Account)
    requires kept <= records
    ensures |Supporting(Older(kept, r))| <= |Supporting(Older(records, r))|
    ensures |SupportingHistory(Older(kept, r))| <= |SupportingHistory(Older(records, r))|
  {
    SubsetSize(Supporting(Older(kept, r)), Supporting(Older(records, r)));
    SubsetSize(SupportingHistory(Older(kept, r)), SupportingHistory(Older(records, r)));
  }

  /** Removing accounts and raising allowances never lowers the mode of an account that remains. */
  lemma NeverLowered(records: set<Account>, kept: set<Account>, r: Account, a: Allowances, b: Allowances)
    requires kept <= records && a.balance <= b.balance && a.history <= b.history
    ensures Level(ModeOf(kept, r, b)) >= Level(ModeOf(records, r, a))
  {
    OlderShrinks(records, kept, r);
  }
}
