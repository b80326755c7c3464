/** The provider's fee pools and the bank balances they exchange tokens with, updated in place. */
module FeeKeeper {
  import opened Common
  import opened MapSum
  import opened FeePool
  import Accusations

  type Pair = Accusations.Pair

  datatype PoolError = DepositTooSmall | InsufficientFunds | NoShares | PoolEmpty | SubShareWithdraw

  function AccountOf(accounts: map<Address, int>, a: Address): int {
    if a in accounts then accounts[a] else 0
  }

  function Credited(accounts: map<Address, int>, a: Address, amount: int): map<Address, int> {
    accounts[a := AccountOf(accounts, a) + amount]
  }

  lemma CreditedSum(accounts: map<Address, int>, a: Address, amount: int)
    ensures Sum(Credited(accounts, a, amount)) == Sum(accounts) + amount
  {
    SumUpdate(accounts, a, AccountOf(accounts, a) + amount);
  }

  /** Each account credited once per mention. */
  function CreditedAll(accounts: map<Address, int>, to': seq<Address>, amount: int): map<Address, int> {
    if to' == [] then accounts
    else Credited(CreditedAll(accounts, to'[..|to'| - 1], amount), to'[|to'| - 1], amount)
  }

  lemma {:induction false} CreditedAllSum(accounts: map<Address, int>, to': seq<Address>, amount: int)
    ensures Sum(CreditedAll(accounts, to', amount)) == Sum(accounts) + amount * |to'|
    decreases |to'|
  {
    if to' != [] {
      var init := to'[..|to'| - 1];
      CreditedAllSum(accounts, init, amount);
      CreditedSum(CreditedAll(accounts, init, amount), to'[|to'| - 1], amount);
      TimesOneMore(amount, |init|);
    }
  }

  // Who is paid and who is excluded.

  function EligibleAccounts(bonded: seq<Bonded>, c: ConsumerId, marks: set<Pair>): seq<Address> {
    if bonded == [] then [] else
      var init, v := bonded[..|bonded| - 1], bonded[|bonded| - 1];
      EligibleAccounts(init, c, marks) + if Accusations.Pair(c, v.cons) in marks then [] else [v.account]
  }

  function ExcludedAddrs(bonded: seq<Bonded>, c: ConsumerId, marks: set<Pair>): seq<Address> {
    if bonded == [] then [] else
      var init, v := bonded[..|bonded| - 1], bonded[|bonded| - 1];
      ExcludedAddrs(init, c, marks) + if Accusations.Pair(c, v.cons) in marks then [v.cons] else []
  }

  lemma {:induction false} EveryoneCounted(bonded: seq<Bonded>, c: ConsumerId, marks: set<Pair>)
    ensures |EligibleAccounts(bonded, c, marks)| + |ExcludedAddrs(bonded, c, marks)| == |bonded|
    decreases |bonded|
  {
    if bonded != [] {
      EveryoneCounted(bonded[..|bonded| - 1], c, marks);
    }
  }

  /** The bonded validators marked for downtime on the consumer. */
  ghost function Marked(bonded: seq<Bonded>, c: ConsumerId, marks: set<Pair>): set<Address> {
    set i | 0 <= i < |bonded| && Accusations.Pair(c, bonded[i].cons) in marks :: bonded[i].cons
  }

  /** Where among the bonded validators those stand that are not marked and are paid to account x. */
  ghost function UnmarkedPaidTo(bonded: seq<Bonded>, c: ConsumerId, marks: set<Pair>, x: Address): set<int> {
    set i | 0 <= i < |bonded| && bonded[i].account == x && Accusations.Pair(c, bonded[i].cons) !in marks
  }

  lemma MarkedNext(bonded: seq<Bonded>, c: ConsumerId, marks: set<Pair>)
    requires bonded != []
    ensures var v := bonded[|bonded| - 1];
            Marked(bonded, c, marks) == Marked(bonded[..|bonded| - 1], c, marks)
              + if Accusations.Pair(c, v.cons) in marks then {v.cons} else {}
  {
    var init, v := bonded[..|bonded| - 1], bonded[|bonded| - 1];
    forall a | a in Marked(init, c, marks) ensures a in Marked(bonded, c, marks) {
      var i :| 0 <= i < |init| && Accusations.Pair(c, init[i].cons) in marks && init[i].cons == a;
      assert bonded[i] == init[i];
    }
    forall a | a in Marked(bonded, c, marks) && !(a == v.cons && Accusations.Pair(c, v.cons) in marks)
      ensures a in Marked(init, c, marks)
    {
      var i :| 0 <= i < |bonded| && Accusations.Pair(c, bonded[i].cons) in marks && bonded[i].cons == a;
      assert init[i] == bonded[i];
    }
    assert bonded[|bonded| - 1] == v;
  }

  lemma {:induction false} ExcludedAreMarked(bonded: seq<Bonded>, c: ConsumerId, marks: set<Pair>)
    requires DistinctValidators(bonded)
    ensures Lists(ExcludedAddrs(bonded, c, marks), Marked(bonded, c, marks))
    decreases |bonded|
  {
    if bonded != [] {
      var init, v := bonded[..|bonded| - 1], bonded[|bonded| - 1];
      ExcludedAreMarked(init, c, marks);
      MarkedNext(bonded, c, marks);
      forall i | 0 <= i < |init| ensures init[i].cons != v.cons {
        assert bonded[i].cons != bonded[|bonded| - 1].cons;
      }
    }
  }

  /** How often the account stands in the list. */
  function Mentions(list: seq<Address>, x: Address): nat {
    if list == [] then 0 else
      Mentions(list[..|list| - 1], x) + if list[|list| - 1] == x then 1 else 0
  }

  lemma MentionsNext(list: seq<Address>, a: Address, x: Address)
    ensures Mentions(list + [a], x) == Mentions(list, x) + if a == x then 1 else 0
  {
    assert (list + [a])[..|list|] == list;
  }

  lemma UnmarkedNext(bonded: seq<Bonded>, c: ConsumerId, marks: set<Pair>, x: Address)
    requires bonded != []
    ensures var v := bonded[|bonded| - 1];
            |UnmarkedPaidTo(bonded, c, marks, x)| == |UnmarkedPaidTo(bonded[..|bonded| - 1], c, marks, x)|
              + if v.account == x && Accusations.Pair(c, v.cons) !in marks then 1 else 0
  {
    var init, n := bonded[..|bonded| - 1], |bonded| - 1;
    var before, after := UnmarkedPaidTo(init, c, marks, x), UnmarkedPaidTo(bonded, c, marks, x);
    forall i | 0 <= i < n ensures i in before <==> i in after {
      assert init[i] == bonded[i];
    }
    assert after == before + if n in after then {n} else {};
  }

  lemma {:induction false} EligibleAreUnmarked(bonded: seq<Bonded>, c: ConsumerId, marks: set<Pair>, x: Address)
    ensures Mentions(EligibleAccounts(bonded, c, marks), x) == |UnmarkedPaidTo(bonded, c, marks, x)|
    decreases |bonded|
  {
    if bonded == [] {
      assert UnmarkedPaidTo(bonded, c, marks, x) == {};
    } else {
      var init, v := bonded[..|bonded| - 1], bonded[|bonded| - 1];
      EligibleAreUnmarked(init, c, marks, x);
      UnmarkedNext(bonded, c, marks, x);
      if Accusations.Pair(c, v.cons) in marks {
        assert EligibleAccounts(bonded, c, marks) == EligibleAccounts(init, c, marks);
      } else {
        MentionsNext(EligibleAccounts(init, c, marks), v.account, x);
      }
    }
  }

  lemma {:induction false} CreditedAllAt(accounts: map<Address, int>, to': seq<Address>, amount: int, x: Address)
    ensures AccountOf(CreditedAll(accounts, to', amount), x) == AccountOf(accounts, x) + amount * Mentions(to', x)
    decreases |to'|
  {
    if to' != [] {
      var init, a := to'[..|to'| - 1], to'[|to'| - 1];
      CreditedAllAt(accounts, init, amount, x);
      assert to' == init + [a];
      if a == x {
        TimesOneMore(amount, Mentions(init, x));
      }
    }
  }

  /** Every account has grown by the share once for each unmarked validator paid to it. */
  ghost predicate EachPaid(
    accounts: map<Address, int>, accounts': map<Address, int>, bonded: seq<Bonded>, c: ConsumerId, marks: set<Pair>,
    share: int)
  {
    forall x ::
      AccountOf(accounts', x) == AccountOf(accounts, x) + share * |UnmarkedPaidTo(bonded, c, marks, x)|
  }

  lemma EligiblePaid(
    accounts: map<Address, int>, accounts': map<Address, int>, bonded: seq<Bonded>, c: ConsumerId, marks: set<Pair>,
    share: int)
    requires accounts' == CreditedAll(accounts, EligibleAccounts(bonded, c, marks), share)
    ensures EachPaid(accounts, accounts', bonded, c, marks, share)
  {
    forall x
      ensures AccountOf(accounts', x) == AccountOf(accounts, x) + share * |UnmarkedPaidTo(bonded, c, marks, x)|
    {
      CreditedAllAt(accounts, EligibleAccounts(bonded, c, marks), share, x);
      EligibleAreUnmarked(bonded, c, marks, x);
    }
  }

  /** A run pays when there is a whole share each, nothing of it in escrow, and the transfer, if any, goes through. */
  ghost predicate Pays(
    p: Pool, c: ConsumerId, fee: int, bonded: seq<Bonded>, marks: set<Pair>, sends: bool, now: Time)
  {
    && fee >= |bonded| && p.balance - Outstanding(p, now) >= fee
    && (sends || |Marked(bonded, c, marks)| == |bonded|)
  }

  /**
   * What an epoch makes of a pool: equal shares of the fee, as large as they can be, leave for the unmarked
   * validators and are withheld from the marked ones; or nothing moves. The share paid is recorded either way.
   */
  ghost predicate PoolCharged(
    p: Pool, q: Pool, c: ConsumerId, fee: int, bonded: seq<Bonded>, marks: set<Pair>, sends: bool, now: Time,
    window: Time)
  {
    var marked := Marked(bonded, c, marks);
    && now in q.runs && q.runs == p.runs[now := q.runs[now]] && q.shares == p.shares && q.total == p.total
    && if Pays(p, c, fee, bonded, marks, sends, now) then
         var share := q.runs[now];
         && share * |bonded| <= fee < (share + 1) * |bonded|
         && q.balance == p.balance - share * (|bonded| - |marked|) && !q.inDebt
         && Withholds(p.records, q.records, marked, share, now, window)
         && (window > 0 ==> Outstanding(q, now) == Outstanding(p, now) + share * |marked|)
       else
         && q.runs[now] == 0 && q.balance == p.balance && q.records == p.records
         && (q.inDebt <==> p.inDebt || (fee > 0 && (fee < |bonded| || p.balance - Outstanding(p, now) < fee)))
  }

  lemma WholeShare(fee: int, n: nat)
    requires fee >= 0 && n > 0
    ensures fee / n == 0 <==> fee < n
    ensures (fee / n) * n <= fee < (fee / n + 1) * n
  {
    FloorBounds(fee, n);
    NonNegativeQuotient(fee, n);
    assert (fee / n + 1) * n == (fee / n) * n + n;
    if fee < n {
      MulCancelStrict(fee / n, 1, n);
    } else {
      MulCancelStrict(1, fee / n + 1, n);
    }
  }

  /** Who of the bonded is paid and who is not. */
  ghost predicate Divided(
    bonded: seq<Bonded>, c: ConsumerId, marks: set<Pair>, eligible: seq<Address>, excluded: seq<Address>)
  {
    && eligible == EligibleAccounts(bonded, c, marks) && excluded == ExcludedAddrs(bonded, c, marks)
    && |eligible| + |excluded| == |bonded|
  }

  lemma ChargedAsDue(
    p: Pool, q: Pool, c: ConsumerId, fee: int, bonded: seq<Bonded>, marks: set<Pair>, eligible: seq<Address>,
    excluded: seq<Address>, sends: bool, now: Time, window: Time)
    requires SoundRecords(p.records) && fee >= 0 && bonded != [] && DistinctValidators(bonded)
    requires Divided(bonded, c, marks, eligible, excluded)
    requires q == Distributed(p, fee, eligible, excluded, sends, now, window)
    ensures PoolCharged(p, q, c, fee, bonded, marks, sends, now, window)
  {
    ExcludedAreMarked(bonded, c, marks);
    WholeShare(fee, |bonded|);
    ChargedFor(p, q, fee, eligible, excluded, Marked(bonded, c, marks), sends, now, window);
  }

  lemma ChargedFor(
    p: Pool, q: Pool, fee: int, eligible: seq<Address>, excluded: seq<Address>, marked: set<Address>, sends: bool,
    now: Time, window: Time)
    requires SoundRecords(p.records) && fee >= 0 && |eligible| + |excluded| > 0 && Lists(excluded, marked)
    requires q == Distributed(p, fee, eligible, excluded, sends, now, window)
    ensures q.runs == p.runs[now := q.runs[now]] && q.shares == p.shares && q.total == p.total
    ensures
      var share := fee / (|eligible| + |excluded|);
      if share != 0 && p.balance - Outstanding(p, now) >= fee && (eligible == [] || sends) then
        && q.runs[now] == share && q.balance == p.balance - share * |eligible| && !q.inDebt
        && Withholds(p.records, q.records, marked, share, now, window)
        && (window > 0 ==> Outstanding(q, now) == Outstanding(p, now) + share * |excluded|)
      else
        && q.runs[now] == 0 && q.balance == p.balance && q.records == p.records
        && (q.inDebt <==> p.inDebt || (fee > 0 && (share == 0 || p.balance - Outstanding(p, now) < fee)))
  {
    var share := fee / (|eligible| + |excluded|);
    NonNegativeQuotient(fee, |eligible| + |excluded|);
    RecordedEach(p.records, excluded, marked, share, now, window);
    RecordedAllOutstanding(p.records, excluded, share, now, window);
    WholeShare(fee, |eligible| + |excluded|);
  }

  /** A run that pays leaves the accounts as due; one that does not leaves them alone, and its share is zero. */
  lemma PaidAsDue(
    p: Pool, q: Pool, accounts: map<Address, int>, accounts': map<Address, int>, c: ConsumerId, fee: int,
    bonded: seq<Bonded>, marks: set<Pair>, eligible: seq<Address>, excluded: seq<Address>, sends: bool, now: Time,
    window: Time)
    requires fee >= 0 && bonded != [] && Divided(bonded, c, marks, eligible, excluded)
    requires q == Distributed(p, fee, eligible, excluded, sends, now, window)
    requires accounts' == if q.balance == p.balance then accounts
                          else CreditedAll(accounts, eligible, fee / |bonded|)
    ensures EachPaid(accounts, accounts', bonded, c, marks, q.runs[now])
  {
    var share := q.runs[now];
    EligiblePaid(accounts, CreditedAll(accounts, eligible, share), bonded, c, marks, share);
    if q.balance == p.balance {
      TimesCount(share, |eligible|);
      CreditedNothing(accounts, eligible, share);
    }
  }

  /** Crediting nobody, or nothing, shows on no account. */
  lemma CreditedNothing(accounts: map<Address, int>, to': seq<Address>, amount: int)
    requires amount == 0 || to' == []
    ensures forall x :: AccountOf(CreditedAll(accounts, to', amount), x) == AccountOf(accounts, x)
  {
    forall x ensures AccountOf(CreditedAll(accounts, to', amount), x) == AccountOf(accounts, x) {
      CreditedAllAt(accounts, to', amount, x);
    }
  }

  lemma TimesCount(share: int, n: nat)
    ensures share != 0 ==> (share * n == 0 <==> n == 0)
  {
  }

  // Repayment of withheld fees.

  /** What a repayment pays under each record, if nothing runs short. */
  function Owed(records: map<Address, Withheld>, payees: map<Address, Address>, sends: set<Address>, now: Time)
    : map<Address, int>
  {
    map a | a in records && records[a].expiresAt > now && records[a].amount > 0 && a in payees && a in sends ::
      records[a].amount
  }

  function OwedTo(owed: map<Address, int>, payees: map<Address, Address>, x: Address): map<Address, int> {
    map a | a in owed && a in payees && payees[a] == x :: owed[a]
  }

  function Restricted<V>(m: map<Address, V>, keys: set<Address>): map<Address, V> {
    map a | a in m && a in keys :: m[a]
  }

  /** An unexpired record whose payee resolves and whose transfer goes through. */
  predicate Payable(
    records: map<Address, Withheld>, a: Address, payees: map<Address, Address>, sends: set<Address>, now: Time)
  {
    a in records && records[a].expiresAt > now && a in payees && a in sends
  }

  /** No other record is paid to the account of a. */
  ghost predicate SolePayee(
    records: map<Address, Withheld>, a: Address, payees: map<Address, Address>, sends: set<Address>, now: Time)
  {
    && Payable(records, a, payees, sends, now)
    && forall b :: b != a && Payable(records, b, payees, sends, now) ==> payees[b] != payees[a]
  }

  /**
   * Whoever had something withheld gets at least that, and exactly that if nobody else is paid to its account; no
   * other account changes; and if every unexpired record can be paid, the pool loses exactly its escrow.
   */
  ghost predicate MadeWhole(
    p: Pool, left: int, before: map<Address, int>, after: map<Address, int>, payees: map<Address, Address>,
    sends: set<Address>, now: Time)
  {
    && (forall a :: Payable(p.records, a, payees, sends, now) ==>
          AccountOf(after, payees[a]) >= AccountOf(before, payees[a]) + p.records[a].amount)
    && (forall a :: SolePayee(p.records, a, payees, sends, now) ==>
          AccountOf(after, payees[a]) == AccountOf(before, payees[a]) + p.records[a].amount)
    && (forall x :: (forall a :: Payable(p.records, a, payees, sends, now) ==> payees[a] != x) ==>
          AccountOf(after, x) == AccountOf(before, x))
    && ((forall a :: a in LiveAmounts(p.records, now) ==> a in payees && a in sends) ==>
          left == p.balance - Outstanding(p, now))
  }

  lemma OwedMakesWhole(
    p: Pool, left: int, before: map<Address, int>, after: map<Address, int>, payees: map<Address, Address>,
    sends: set<Address>, now: Time)
    requires SoundRecords(p.records)
    requires var owed := Owed(p.records, payees, sends, now);
             left == p.balance - Sum(owed) && PaidEach(owed, payees, before, after)
    ensures MadeWhole(p, left, before, after, payees, sends, now)
  {
    forall a | Payable(p.records, a, payees, sends, now)
      ensures AccountOf(after, payees[a]) >= AccountOf(before, payees[a]) + p.records[a].amount
      ensures SolePayee(p.records, a, payees, sends, now) ==>
        AccountOf(after, payees[a]) == AccountOf(before, payees[a]) + p.records[a].amount
    {
      OwedAtLeast(p, a, payees, sends, now);
    }
    forall x | forall a :: Payable(p.records, a, payees, sends, now) ==> payees[a] != x
      ensures AccountOf(after, x) == AccountOf(before, x)
    {
      OwedToNobody(p, payees, sends, now, x);
    }
    OwedIsEscrow(p, payees, sends, now);
  }

  lemma OwedToNobody(p: Pool, payees: map<Address, Address>, sends: set<Address>, now: Time, x: Address)
    requires forall a :: Payable(p.records, a, payees, sends, now) ==> payees[a] != x
    ensures Sum(OwedTo(Owed(p.records, payees, sends, now), payees, x)) == 0
  {
    var due := OwedTo(Owed(p.records, payees, sends, now), payees, x);
    forall a | a in due ensures Payable(p.records, a, payees, sends, now) {
    }
    assert due == map[];
  }

  lemma OwedIsEscrow(p: Pool, payees: map<Address, Address>, sends: set<Address>, now: Time)
    requires SoundRecords(p.records)
    ensures (forall a :: a in LiveAmounts(p.records, now) ==> a in payees && a in sends) ==>
      Sum(Owed(p.records, payees, sends, now)) == Outstanding(p, now)
  {
    if forall a :: a in LiveAmounts(p.records, now) ==> a in payees && a in sends {
      SumDropZeros(LiveAmounts(p.records, now), Owed(p.records, payees, sends, now));
    }
  }

  lemma OwedAtLeast(p: Pool, a: Address, payees: map<Address, Address>, sends: set<Address>, now: Time)
    requires SoundRecords(p.records) && Payable(p.records, a, payees, sends, now)
    ensures var due := OwedTo(Owed(p.records, payees, sends, now), payees, payees[a]);
            && Sum(due) >= p.records[a].amount
            && (SolePayee(p.records, a, payees, sends, now) ==> Sum(due) == p.records[a].amount)
  {
    var due := OwedTo(Owed(p.records, payees, sends, now), payees, payees[a]);
    SumNonNegative(due - {a});
    if a in due {
      SumSplit(due, a);
    } else {
      SumNonNegative(due);
    }
    if SolePayee(p.records, a, payees, sends, now) {
      forall b | b in due ensures b == a {
        assert Payable(p.records, b, payees, sends, now);
      }
      assert due - {a} == map[];
    }
  }

  lemma LiveWithout(records: map<Address, Withheld>, rest: set<Address>, a: Address, now: Time)
    requires a in rest && a in records
    ensures var live := LiveAmounts(Restricted(records, rest), now);
            var less := LiveAmounts(Restricted(records, rest - {a}), now);
            Sum(less) == Sum(live) - if records[a].expiresAt > now then records[a].amount else 0
  {
    var live, less := LiveAmounts(Restricted(records, rest), now), LiveAmounts(Restricted(records, rest - {a}), now);
    assert less == live - {a};
    if records[a].expiresAt > now {
      SumSplit(live, a);
    } else {
      assert less == live;
    }
  }

  lemma OwedOneMore(owed: map<Address, int>, done: set<Address>, a: Address)
    requires a !in done
    ensures Sum(Restricted(owed, done + {a})) == Sum(Restricted(owed, done)) + if a in owed then owed[a] else 0
  {
    var more := Restricted(owed, done + {a});
    if a in owed {
      SumSplit(more, a);
      assert more - {a} == Restricted(owed, done);
    } else {
      assert more == Restricted(owed, done);
    }
  }

  lemma SummedNone(m: map<Address, int>)
    ensures Sum(Restricted(m, {})) == 0
  {
    assert Restricted(m, {}) == map[];
  }

  lemma SummedAll(m: map<Address, int>, keys: set<Address>)
    requires m.Keys <= keys
    ensures Restricted(m, keys) == m
  {
  }

  lemma OwedToOneMore(
    owed: map<Address, int>, payees: map<Address, Address>, done: set<Address>, a: Address, x: Address)
    requires a !in done
    ensures Sum(OwedTo(Restricted(owed, done + {a}), payees, x))
         == Sum(OwedTo(Restricted(owed, done), payees, x))
            + if a in owed && a in payees && payees[a] == x then owed[a] else 0
  {
    var more, fewer := OwedTo(Restricted(owed, done + {a}), payees, x), OwedTo(Restricted(owed, done), payees, x);
    if a in owed && a in payees && payees[a] == x {
      SumSplit(more, a);
      assert more - {a} == fewer;
    } else {
      assert more == fewer;
    }
  }

  /** How far a repayment has come: the records in done are settled. */
  ghost predicate PaidSoFar(
    p: Pool, payees: map<Address, Address>, sends: set<Address>, now: Time, done: set<Address>, rest: set<Address>,
    balance: int, before: map<Address, int>, accounts: map<Address, int>)
  {
    var owed := Owed(p.records, payees, sends, now);
    && balance == p.balance - Sum(Restricted(owed, done))
    && balance >= Sum(LiveAmounts(Restricted(p.records, rest), now))
    && PaidEach(Restricted(owed, done), payees, before, accounts)
  }

  /** Every account has grown by exactly what paid owes it. */
  ghost predicate PaidEach(
    paid: map<Address, int>, payees: map<Address, Address>, before: map<Address, int>, accounts: map<Address, int>)
  {
    forall x :: AccountOf(accounts, x) == AccountOf(before, x) + Sum(OwedTo(paid, payees, x))
  }

  lemma PaidEachOneMore(
    owed: map<Address, int>, payees: map<Address, Address>, done: set<Address>, a: Address, before: map<Address, int>,
    accounts: map<Address, int>)
    requires owed.Keys <= payees.Keys && a !in done && PaidEach(Restricted(owed, done), payees, before, accounts)
    ensures PaidEach(Restricted(owed, done + {a}), payees, before,
                     if a in owed then Credited(accounts, payees[a], owed[a]) else accounts)
  {
    forall x ensures Sum(OwedTo(Restricted(owed, done + {a}), payees, x))
                  == Sum(OwedTo(Restricted(owed, done), payees, x)) + if a in owed && payees[a] == x then owed[a] else 0
    {
      OwedToOneMore(owed, payees, done, a, x);
    }
  }

  lemma PaysNone(p: Pool, payees: map<Address, Address>, sends: set<Address>, now: Time, accounts: map<Address, int>)
    requires Solvent(p, now)
    ensures PaidSoFar(p, payees, sends, now, {}, p.records.Keys, p.balance, accounts, accounts)
  {
    var owed := Owed(p.records, payees, sends, now);
    assert Restricted(owed, {}) == map[];
    assert Restricted(p.records, p.records.Keys) == p.records;
    forall x ensures OwedTo(Restricted(owed, {}), payees, x) == map[] {
    }
  }

  /** One more record settled, its amount paid if it is owed. */
  lemma PaysOneMore(
    p: Pool, payees: map<Address, Address>, sends: set<Address>, now: Time, done: set<Address>, rest: set<Address>,
    balance: int, before: map<Address, int>, accounts: map<Address, int>, a: Address)
    requires PaidSoFar(p, payees, sends, now, done, rest, balance, before, accounts)
    requires a in rest && a !in done && a in p.records && forall b :: b in p.records ==> p.records[b].amount >= 0
    ensures p.records[a].expiresAt > now ==> p.records[a].amount <= balance
    ensures var owed := Owed(p.records, payees, sends, now);
            var left := balance - if a in owed then owed[a] else 0;
            var after := if a in owed then Credited(accounts, payees[a], owed[a]) else accounts;
            PaidSoFar(p, payees, sends, now, done + {a}, rest - {a}, left, before, after)
  {
    var owed := Owed(p.records, payees, sends, now);
    LiveWithout(p.records, rest, a, now);
    SumNonNegative(LiveAmounts(Restricted(p.records, rest - {a}), now));
    OwedOneMore(owed, done, a);
    PaidEachOneMore(owed, payees, done, a, before, accounts);
  }

  // The sweep.

  /**
   * What a sweep pays out: every holder its slice, the distribution account's slice and the dust to the
   * community pool, the two together being exactly the balance, and the dust smaller than the holders' number.
   */
  ghost predicate SweepPays(p: Pool, before: map<Address, int>, after: map<Address, int>, toCommunity: int) {
    if p.balance == 0 || Total(p) == 0 then after == before && toCommunity == 0 else
      var slices := Slices(p.shares, p.balance, Total(p));
      var dust := toCommunity - if DISTRIBUTION in slices then slices[DISTRIBUTION] else 0;
      && Sum(slices) + dust == p.balance && 0 <= dust < |p.shares|
      && forall x ::
           AccountOf(after, x) == AccountOf(before, x) + if x in slices && x != DISTRIBUTION then slices[x] else 0
  }

  /** Each holder's account grows by its part of the balance, to the last whole token; no other account changes. */
  ghost predicate SplitFairly(p: Pool, before: map<Address, int>, after: map<Address, int>) {
    forall x ::
      var gain := AccountOf(after, x) - AccountOf(before, x);
      if x in p.shares && x != DISTRIBUTION then
        gain * Total(p) <= p.shares[x] * p.balance < (gain + 1) * Total(p)
      else gain == 0
  }

  lemma SweepIsFair(p: Pool, before: map<Address, int>, after: map<Address, int>, toCommunity: int)
    requires Accounted(p) && p.shares != map[] && p.balance > 0 && SweepPays(p, before, after, toCommunity)
    ensures SplitFairly(p, before, after)
  {
    PositiveSum(p.shares);
    forall x | x in p.shares && x != DISTRIBUTION
      ensures var gain := AccountOf(after, x) - AccountOf(before, x);
              gain * Total(p) <= p.shares[x] * p.balance < (gain + 1) * Total(p)
    {
      SliceOfEach(p.shares, p.balance, Total(p), x);
    }
  }

  /** How far a sweep has come: the holders in done have their slices. */
  ghost predicate SweptSoFar(
    p: Pool, done: set<Address>, distributed: int, before: map<Address, int>, accounts: map<Address, int>,
    toCommunity: int)
    requires Total(p) != 0
  {
    var slices := Slices(p.shares, p.balance, Total(p));
    && distributed == Sum(Restricted(slices, done))
    && toCommunity == (if DISTRIBUTION in done && DISTRIBUTION in slices then slices[DISTRIBUTION] else 0)
    && forall x :: AccountOf(accounts, x)
         == AccountOf(before, x) + if x in done && x in slices && x != DISTRIBUTION then slices[x] else 0
  }

  /** A pool as a sweep finds it: empty, holding only worthless shares, or settled with holders for its balance. */
  lemma ReadyToSweep(p: Pool)
    requires Sound(p)
    ensures p.balance == 0 && Total(p) == 0 ==> Settled(p) == p && p.(balance := 0, shares := map[], total := None) == p
    ensures p.balance == 0 && Total(p) > 0 ==> Settled(p) == Cleared(p)
    ensures p.balance > 0 ==> Settled(p) == if Total(p) == 0 then Absorbed(p) else p
    ensures p.balance > 0 ==> Settled(p).shares != map[] && Total(Settled(p)) > 0
    ensures p.balance >= 0 && Total(p) >= 0 && Accounted(Settled(p))
  {
    SettledAccounted(p);
    PositiveSum(p.shares);
  }

  lemma SweptNext(
    p: Pool, done: set<Address>, distributed: int, before: map<Address, int>, accounts: map<Address, int>,
    toCommunity: int, a: Address, accounts': map<Address, int>, toCommunity': int)
    requires Accounted(p) && a in p.shares && a !in done && Total(p) > 0
    requires SweptSoFar(p, done, distributed, before, accounts, toCommunity)
    requires var slice := p.shares[a] * p.balance / Total(p);
             && toCommunity' == toCommunity + (if a == DISTRIBUTION then slice else 0)
             && forall x :: AccountOf(accounts', x)
                  == AccountOf(accounts, x) + if x == a && a != DISTRIBUTION then slice else 0
    ensures SweptSoFar(p, done + {a}, distributed + p.shares[a] * p.balance / Total(p), before, accounts', toCommunity')
  {
    SweepsOneMore(p, done, a);
  }

  /** With every holder served, what is left for the community pool is the dust. */
  lemma SweptAll(
    p: Pool, done: set<Address>, distributed: int, before: map<Address, int>, accounts: map<Address, int>,
    toCommunity: int)
    requires Accounted(p) && p.balance > 0 && p.shares != map[] && Total(p) > 0 && done == p.shares.Keys
    requires SweptSoFar(p, done, distributed, before, accounts, toCommunity)
    ensures distributed <= p.balance && SweepPays(p, before, accounts, toCommunity + p.balance - distributed)
  {
    assert Restricted(Slices(p.shares, p.balance, Total(p)), done) == Slices(p.shares, p.balance, Total(p));
    SweepDust(p);
  }

  lemma SweepsOneMore(p: Pool, done: set<Address>, a: Address)
    requires Accounted(p) && a in p.shares && a !in done
    ensures Total(p) > 0
    ensures var slices := Slices(p.shares, p.balance, Total(p));
            && slices[a] >= 0
            && Sum(Restricted(slices, done + {a})) == Sum(Restricted(slices, done)) + slices[a] <= p.balance
  {
    PositiveSum(p.shares);
    var slices := Slices(p.shares, p.balance, Total(p));
    SlicesNonNegative(p.shares, p.balance, Total(p));
    OwedOneMore(slices, done, a);
    SumAtMost(Restricted(slices, done + {a}), slices);
    SweepDust(p);
  }

  class Pools {
    var pools: map<ConsumerId, Pool>
    var accounts: map<Address, int>
    var module': int
    var community: int

    ghost predicate Valid()
      reads this
    {
      module' >= 0 && forall c :: c in pools ==> Sound(pools[c])
    }

    constructor ()
      ensures Valid() && pools == map[]
    {
      pools, accounts, module', community := map[], map[], 0, 0;
    }

    /** Reading an absent pool as an empty one. */
    function PoolOf(c: ConsumerId): Pool
      reads this
    {
      if c in pools then pools[c] else EMPTY_POOL
    }

    lemma PoolAccounted(c: ConsumerId)
      requires Valid()
      ensures Sound(PoolOf(c))
    {
    }

    /** Sums the unexpired records with a loop. */
    static method OutstandingWithheldFees(records: map<Address, Withheld>, now: Time) returns (total: int)
      ensures total == Sum(LiveAmounts(records, now))
    {
      total := 0;
      ghost var live := LiveAmounts(records, now);
      var rest := records.Keys;
      ghost var done: set<Address> := {};
      SummedNone(live);
      while rest != {}
        invariant rest <= records.Keys && done == records.Keys - rest
        invariant total == Sum(Restricted(live, done))
        decreases |rest|
      {
        var a :| a in rest;
        OwedOneMore(live, done, a);
        if records[a].expiresAt > now {
          total := total + records[a].amount;
        }
        rest := rest - {a};
        done := done + {a};
      }
      SummedAll(live, done);
    }

    method ComputeClaim(c: ConsumerId, depositor: Address, now: Time) returns (tokens: int)
      requires Valid()
      ensures tokens == Claim(PoolOf(c), depositor, now) && Quoted(PoolOf(c), depositor, now, tokens)
    {
      var p := PoolOf(c);
      PoolAccounted(c);
      ClaimIsQuoted(p, depositor, now);
      if p.balance == 0 || depositor !in p.shares || Total(p) == 0 {
        return 0;
      }
      var outstanding := OutstandingWithheldFees(p.records, now);
      return FeePoolDraw(p.shares[depositor], Total(p), p.balance, p.balance - outstanding).tokens;
    }

    /** What a depositor can spend: the distribution account spends from the community pool. */
    function Spendable(a: Address): int
      reads this
    {
      if a == DISTRIBUTION then community else AccountOf(accounts, a)
    }

    /** Moves tokens to or from a depositor. */
    method Transfer(a: Address, amount: int)
      modifies this`accounts, this`community
      ensures community == old(community) + if a == DISTRIBUTION then amount else 0
      ensures accounts == if a == DISTRIBUTION then old(accounts) else Credited(old(accounts), a, amount)
    {
      if a == DISTRIBUTION {
        community := community + amount;
      } else {
        accounts := Credited(accounts, a, amount);
      }
    }

    /** Credits shares for a deposit and moves the tokens; a refused deposit is rolled back. */
    method FundConsumerFeePool(c: ConsumerId, depositor: Address, amount: int) returns (error: Option<PoolError>)
      requires Valid() && amount > 0
      modifies this`pools, this`accounts, this`community
      ensures Valid()
      ensures error == (if SharesToMint(Settled(old(PoolOf(c))), amount) <= 0 then Some(DepositTooSmall)
                        else if old(Spendable(depositor)) < amount then Some(InsufficientFunds) else None)
      ensures error.Some? ==> pools == old(pools) && accounts == old(accounts) && community == old(community)
      ensures error.None? ==>
        var settled := Settled(old(PoolOf(c)));
        && pools == old(pools)[c := Deposited(settled, depositor, amount, SharesToMint(settled, amount))]
        && Spendable(depositor) == old(Spendable(depositor)) - amount
        && forall x :: x != depositor ==> Spendable(x) == old(Spendable(x))
      ensures error.None? ==> Credits(Settled(old(PoolOf(c))), PoolOf(c), depositor, amount)
    {
      ghost var p := PoolOf(c);
      PoolAccounted(c);
      SettledAccounted(p);
      error := MintShares(c, depositor, amount);
      DepositIsAmple(Settled(p), depositor, amount);
    }

    /** Credits the shares and moves the tokens, in one transaction. */
    method MintShares(c: ConsumerId, depositor: Address, amount: int) returns (error: Option<PoolError>)
      requires Valid() && amount > 0
      modifies this`pools, this`accounts, this`community
      ensures Valid()
      ensures error == (if SharesToMint(Settled(old(PoolOf(c))), amount) <= 0 then Some(DepositTooSmall)
                        else if old(Spendable(depositor)) < amount then Some(InsufficientFunds) else None)
      ensures error.Some? ==> pools == old(pools) && accounts == old(accounts) && community == old(community)
      ensures error.None? ==>
        var settled := Settled(old(PoolOf(c)));
        && pools == old(pools)[c := Deposited(settled, depositor, amount, SharesToMint(settled, amount))]
        && Spendable(depositor) == old(Spendable(depositor)) - amount
        && forall x :: x != depositor ==> Spendable(x) == old(Spendable(x))
    {
      PoolAccounted(c);
      var p := PoolOf(c);
      SettledAccounted(p);
      if p.balance == 0 && Total(p) > 0 {
        p := Cleared(p);
      }
      if Total(p) == 0 && p.balance > 0 {
        p := Absorbed(p);
      }
      var shares := if Total(p) == 0 then amount else amount * Total(p) / p.balance;
      if shares <= 0 {
        return Some(DepositTooSmall);
      }
      if Spendable(depositor) < amount {
        return Some(InsufficientFunds);
      }
      DepositIsFair(p, depositor, amount);
      pools := pools[c := Deposited(p, depositor, amount, shares)];
      Transfer(depositor, -amount);
      return None;
    }

    /** A community-pool spend addressed straight at the pool: tokens arrive and no shares are minted. */
    method ReceiveUnaccounted(c: ConsumerId, amount: int) returns (ok: bool)
      requires Valid() && amount > 0
      modifies this`pools, this`community
      ensures Valid()
      ensures ok <==> old(community) >= amount
      ensures !ok ==> pools == old(pools) && community == old(community)
      ensures ok ==> pools == old(pools)[c := Received(old(PoolOf(c)), amount)]
                     && community == old(community) - amount
    {
      if community < amount {
        return false;
      }
      var p := PoolOf(c);
      PoolAccounted(c);
      pools := pools[c := Received(p, amount)];
      community := community - amount;
      return true;
    }

    /** Burns shares and sends the tokens they draw, never more than the unreserved balance. */
    method WithdrawShares(c: ConsumerId, depositor: Address, amount: int, now: Time)
      returns (error: Option<PoolError>, tokens: int)
      requires Valid()
      modifies this`pools, this`accounts, this`community
      ensures Valid()
      ensures error.Some? ==>
        pools == old(pools) && accounts == old(accounts) && community == old(community) && tokens == 0
      ensures error.None? <==> Withdrawable(old(PoolOf(c)), depositor, amount, now)
      ensures error.None? ==>
        var d := DrawFor(old(PoolOf(c)), depositor, amount, now);
        && Min(amount, old(PoolOf(c)).balance - Outstanding(old(PoolOf(c)), now)) > 0 && tokens == d.tokens
        && pools == old(pools)[c := Withdrawn(old(PoolOf(c)), depositor, d)]
        && Spendable(depositor) == old(Spendable(depositor)) + tokens
        && forall x :: x != depositor ==> Spendable(x) == old(Spendable(x))
      ensures error.Some? <==> Unwithdrawable(old(PoolOf(c)), depositor, amount, now)
      ensures error.None? ==>
        Withdraws(old(PoolOf(c)), PoolOf(c), depositor, Limit(old(PoolOf(c)), amount, now), tokens)
    {
      ghost var p := PoolOf(c);
      PoolAccounted(c);
      WithdrawalIsAmple(p, depositor, amount, now);
      error, tokens := BurnShares(c, depositor, amount, now);
    }

    /** The burn and the transfer, in one transaction. */
    method BurnShares(c: ConsumerId, depositor: Address, amount: int, now: Time)
      returns (error: Option<PoolError>, tokens: int)
      requires Valid()
      modifies this`pools, this`accounts, this`community
      ensures Valid()
      ensures error.Some? ==>
        pools == old(pools) && accounts == old(accounts) && community == old(community) && tokens == 0
      ensures error.None? <==> Withdrawable(old(PoolOf(c)), depositor, amount, now)
      ensures error.None? ==>
        var d := DrawFor(old(PoolOf(c)), depositor, amount, now);
        && Min(amount, old(PoolOf(c)).balance - Outstanding(old(PoolOf(c)), now)) > 0 && tokens == d.tokens
        && pools == old(pools)[c := Withdrawn(old(PoolOf(c)), depositor, d)]
        && Spendable(depositor) == old(Spendable(depositor)) + tokens
        && forall x :: x != depositor ==> Spendable(x) == old(Spendable(x))
    {
      PoolAccounted(c);
      var p := PoolOf(c);
      if depositor !in p.shares {
        return Some(NoShares), 0;
      }
      if Total(p) == 0 {
        return Some(PoolEmpty), 0;
      }
      var outstanding := OutstandingWithheldFees(p.records, now);
      var available := p.balance - outstanding;
      if available <= 0 {
        return Some(PoolEmpty), 0;
      }
      var limit := if amount > available then available else amount;
      var d := FeePoolDraw(p.shares[depositor], Total(p), p.balance, limit);
      if d.burn <= 0 {
        return Some(SubShareWithdraw), 0;
      }
      WithdrawalIsFair(p, depositor, limit);
      pools := pools[c := Withdrawn(p, depositor, d)];
      Transfer(depositor, d.tokens);
      return None, d.tokens;
    }

    // One consumer's share of a distribution run.

    static method Split(bonded: seq<Bonded>, c: ConsumerId, marks: set<Pair>)
      returns (eligible: seq<Address>, excluded: seq<Address>)
      ensures eligible == EligibleAccounts(bonded, c, marks) && excluded == ExcludedAddrs(bonded, c, marks)
    {
      eligible, excluded := [], [];
      for i := 0 to |bonded|
        invariant eligible == EligibleAccounts(bonded[..i], c, marks)
        invariant excluded == ExcludedAddrs(bonded[..i], c, marks)
      {
        assert bonded[..i + 1][..i] == bonded[..i];
        if Accusations.Pair(c, bonded[i].cons) in marks {
          excluded := excluded + [bonded[i].cons];
        } else {
          eligible := eligible + [bonded[i].account];
        }
      }
      assert bonded[..|bonded|] == bonded;
    }

    /** The single transfer to all eligible validators. */
    method PayEach(to': seq<Address>, amount: int)
      modifies this`accounts
      ensures accounts == CreditedAll(old(accounts), to', amount)
    {
      for i := 0 to |to'|
        invariant accounts == CreditedAll(old(accounts), to'[..i], amount)
      {
        assert to'[..i + 1][..i] == to'[..i];
        accounts := Credited(accounts, to'[i], amount);
      }
      assert to'[..|to'|] == to';
    }

    /** Escrows one share for each excluded validator. */
    static method RecordWithheldFees(
      records: map<Address, Withheld>, excluded: seq<Address>, amount: int, now: Time, window: Time)
      returns (after: map<Address, Withheld>)
      ensures after == RecordedAll(records, excluded, amount, now, window)
    {
      after := records;
      for i := 0 to |excluded|
        invariant after == RecordedAll(records, excluded[..i], amount, now, window)
      {
        assert excluded[..i + 1][..i] == excluded[..i];
        var a := excluded[i];
        var due := amount;
        if a in after && after[a].expiresAt > now {
          due := due + after[a].amount;
        }
        after := after[a := Withheld(due, now + window)];
      }
      assert excluded[..|excluded|] == excluded;
    }

    ghost predicate RunDone(
      before: map<ConsumerId, Pool>, accountsBefore: map<Address, int>, c: ConsumerId, fee: int, eligible: seq<Address>,
      excluded: seq<Address>, sends: bool, now: Time, window: Time)
      requires |eligible| + |excluded| > 0
      reads this
    {
      var p := if c in before then before[c] else EMPTY_POOL;
      var q := Distributed(p, fee, eligible, excluded, sends, now, window);
      && pools == before[c := q]
      && accounts == (if q.balance == p.balance then accountsBefore
                      else CreditedAll(accountsBefore, eligible, fee / (|eligible| + |excluded|)))
    }

    /** Charges consumer c the epoch fee, in equal shares, from what its pool does not hold in escrow. */
    method DistributeToOne(
      c: ConsumerId, fee: int, bonded: seq<Bonded>, marks: set<Pair>, sends: bool, now: Time, window: Time)
      requires Valid() && fee >= 0 && bonded != []
      modifies this`pools, this`accounts
      ensures Valid()
      ensures |EligibleAccounts(bonded, c, marks)| + |ExcludedAddrs(bonded, c, marks)| == |bonded|
      ensures RunDone(old(pools), old(accounts), c, fee, EligibleAccounts(bonded, c, marks),
                      ExcludedAddrs(bonded, c, marks), sends, now, window)
      ensures Sum(accounts) + PoolOf(c).balance == old(Sum(accounts) + PoolOf(c).balance)
      ensures DistinctValidators(bonded) ==>
        && PoolCharged(old(PoolOf(c)), PoolOf(c), c, fee, bonded, marks, sends, now, window)
        && EachPaid(old(accounts), accounts, bonded, c, marks, PoolOf(c).runs[now])
    {
      EveryoneCounted(bonded, c, marks);
      PoolAccounted(c);
      var p := PoolOf(c);
      var eligible, excluded := Split(bonded, c, marks);
      var q := Charge(p, fee, eligible, excluded, sends, now, window);
      pools := pools[c := q];
      if DistinctValidators(bonded) {
        ChargedAsDue(p, q, c, fee, bonded, marks, eligible, excluded, sends, now, window);
        PaidAsDue(p, q, old(accounts), accounts, c, fee, bonded, marks, eligible, excluded, sends, now, window);
      }
    }

    /** The pool after the charge; the eligible accounts are credited here. */
    method Charge(
      p: Pool, fee: int, eligible: seq<Address>, excluded: seq<Address>, sends: bool, now: Time, window: Time)
      returns (q: Pool)
      requires |eligible| + |excluded| > 0 && fee >= 0 && Sound(p)
      modifies this`accounts
      ensures Sound(q)
      ensures q == Distributed(p, fee, eligible, excluded, sends, now, window)
      ensures accounts == if q.balance == p.balance then old(accounts)
                          else CreditedAll(old(accounts), eligible, fee / (|eligible| + |excluded|))
      ensures Sum(accounts) + q.balance == Sum(old(accounts)) + p.balance
    {
      DistributionStaysSolvent(p, fee, eligible, excluded, sends, now, window);
      var share := fee / (|eligible| + |excluded|);
      if share == 0 {
        return p.(inDebt := p.inDebt || fee > 0, runs := p.runs[now := share]);
      }
      var outstanding := OutstandingWithheldFees(p.records, now);
      if p.balance - outstanding < fee {
        return p.(inDebt := true, runs := p.runs[now := 0]);
      }
      if |eligible| > 0 {
        if !sends {
          return p.(runs := p.runs[now := 0]);
        }
        PayEach(eligible, share);
      }
      CreditedAllSum(old(accounts), eligible, share);
      TimesCount(share, |eligible|);
      var records := RecordWithheldFees(p.records, excluded, share, now, window);
      q := p.(balance := p.balance - share * |eligible|, inDebt := false, runs := p.runs[now := share],
              records := records);
    }

    /** Repays every unexpired record of a consumer about to be paused, and clears them all. */
    method PayWithheldFees(c: ConsumerId, payees: map<Address, Address>, sends: set<Address>, now: Time)
      requires Valid()
      modifies this`pools, this`accounts
      ensures Valid() && PoolOf(c) == old(PoolOf(c)).(records := map[], balance := PoolOf(c).balance)
      ensures pools == old(pools)[c := PoolOf(c)]
      ensures Solvent(old(PoolOf(c)), now) ==>
        var owed := Owed(old(PoolOf(c)).records, payees, sends, now);
        && PoolOf(c).balance == old(PoolOf(c)).balance - Sum(owed)
        && forall x :: AccountOf(accounts, x) == AccountOf(old(accounts), x) + Sum(OwedTo(owed, payees, x))
      ensures Sum(accounts) + PoolOf(c).balance == old(Sum(accounts) + PoolOf(c).balance)
    {
      PoolAccounted(c);
      var p := PoolOf(c);
      var balance := PayRecords(p, payees, sends, now);
      pools := pools[c := p.(records := map[], balance := balance)];
    }

    method PayRecords(p: Pool, payees: map<Address, Address>, sends: set<Address>, now: Time) returns (balance: int)
      requires p.balance >= 0
      modifies this`accounts
      ensures balance >= 0 && Sum(accounts) + balance == Sum(old(accounts)) + p.balance
      ensures Solvent(p, now) ==>
        var owed := Owed(p.records, payees, sends, now);
        && balance == p.balance - Sum(owed)
        && forall x :: AccountOf(accounts, x) == AccountOf(old(accounts), x) + Sum(OwedTo(owed, payees, x))
    {
      balance := p.balance;
      var rest := p.records.Keys;
      ghost var done: set<Address> := {};
      if Solvent(p, now) {
        PaysNone(p, payees, sends, now, accounts);
      }
      while rest != {}
        invariant rest <= p.records.Keys && done == p.records.Keys - rest && balance >= 0
        invariant Sum(accounts) + balance == Sum(old(accounts)) + p.balance
        invariant Solvent(p, now) ==> PaidSoFar(p, payees, sends, now, done, rest, balance, old(accounts), accounts)
        decreases |rest|
      {
        var a :| a in rest;
        balance := PayRecord(p, a, payees, sends, now, balance, done, rest, old(accounts));
        rest := rest - {a};
        done := done + {a};
      }
      assert Restricted(Owed(p.records, payees, sends, now), done) == Owed(p.records, payees, sends, now);
    }

    /** Pays one record, or what the pool still holds; an expired one, or one whose payee or send fails, is cleared. */
    method PayRecord(
      p: Pool, a: Address, payees: map<Address, Address>, sends: set<Address>, now: Time, balance: int,
      ghost done: set<Address>, ghost rest: set<Address>, ghost before: map<Address, int>) returns (left: int)
      requires balance >= 0 && a in rest && a !in done && a in p.records
      requires Solvent(p, now) ==> PaidSoFar(p, payees, sends, now, done, rest, balance, before, accounts)
      modifies this`accounts
      ensures 0 <= left && Sum(accounts) + left == Sum(old(accounts)) + balance
      ensures Solvent(p, now) ==> PaidSoFar(p, payees, sends, now, done + {a}, rest - {a}, left, before, accounts)
    {
      if Solvent(p, now) {
        PaysOneMore(p, payees, sends, now, done, rest, balance, before, accounts, a);
      }
      left := balance;
      if p.records[a].expiresAt <= now {
        return;
      }
      var payable := p.records[a].amount;
      if balance < payable {
        payable := balance;
      }
      if payable <= 0 {
        return;
      }
      if a !in payees || a !in sends {
        return;
      }
      CreditedSum(accounts, payees[a], payable);
      accounts := Credited(accounts, payees[a], payable);
      left := balance - payable;
    }

    // The sweep of a pool.

    method PayFromModule(amount: int)
      requires 0 <= amount <= module'
      modifies this`module'
      ensures module' == old(module') - amount
    {
      module' := module' - amount;
    }

    /**
     * Drains the pool through the module account: every holder gets its slice, the residue goes to the
     * community pool, and the module account ends where it started.
     */
    method SweepConsumerFeePoolDenom(c: ConsumerId)
      requires Valid()
      modifies this
      ensures Valid() && module' == old(module')
      ensures PoolOf(c) == old(PoolOf(c)).(balance := 0, shares := map[], total := None)
      ensures forall d :: d != c ==> PoolOf(d) == old(PoolOf(d))
      ensures SweepPays(Settled(old(PoolOf(c))), old(accounts), accounts, community - old(community))
    {
      PoolAccounted(c);
      var p := PoolOf(c);
      ReadyToSweep(p);
      if p.balance == 0 && Total(p) == 0 {
        return;
      }
      if Total(p) == 0 {
        p := Absorbed(p);
      }
      if p.balance == 0 {
        pools := pools[c := Cleared(p)];
        return;
      }
      Drain(c, p);
    }

    /** One hop of the whole balance into the module account, and out of it again. */
    method Drain(c: ConsumerId, p: Pool)
      requires module' >= 0 && Accounted(p) && p.balance > 0 && p.shares != map[] && Total(p) > 0
      modifies this
      ensures module' == old(module') && pools == old(pools)[c := p.(balance := 0, shares := map[], total := None)]
      ensures SweepPays(p, old(accounts), accounts, community - old(community))
    {
      module' := module' + p.balance;
      pools := pools[c := p.(balance := 0)];
      DistributeSlices(p);
      pools := pools[c := p.(balance := 0, shares := map[], total := None)];
    }

    method DistributeSlices(p: Pool)
      requires Accounted(p) && p.balance > 0 && p.shares != map[] && Total(p) > 0 && module' >= p.balance
      modifies this`accounts, this`module', this`community
      ensures module' == old(module') - p.balance
      ensures SweepPays(p, old(accounts), accounts, community - old(community))
    {
      var distributed := PayHolders(p);
      SweptAll(p, p.shares.Keys, distributed, old(accounts), accounts, community - old(community));
      var dust := p.balance - distributed;
      if dust > 0 {
        PayFromModule(dust);
        community := community + dust;
      }
    }

    method PayHolders(p: Pool) returns (distributed: int)
      requires Accounted(p) && p.balance > 0 && p.shares != map[] && Total(p) > 0 && module' >= p.balance
      modifies this`accounts, this`module', this`community
      ensures 0 <= distributed <= p.balance && module' == old(module') - distributed
      ensures SweptSoFar(p, p.shares.Keys, distributed, old(accounts), accounts, community - old(community))
    {
      distributed := 0;
      var rest := p.shares.Keys;
      ghost var done: set<Address> := {};
      assert Restricted(Slices(p.shares, p.balance, Total(p)), {}) == map[];
      while rest != {}
        invariant rest <= p.shares.Keys && done == p.shares.Keys - rest
        invariant 0 <= distributed <= p.balance && module' == old(module') - distributed
        invariant SweptSoFar(p, done, distributed, old(accounts), accounts, community - old(community))
        decreases |rest|
      {
        var a :| a in rest;
        distributed := PayNext(p, a, distributed, done, old(accounts), old(community));
        rest := rest - {a};
        done := done + {a};
      }
      assert done == p.shares.Keys;
    }

    /** One more holder gets its slice. */
    method PayNext(
      p: Pool, a: Address, distributed: int, ghost done: set<Address>, ghost before: map<Address, int>,
      ghost outset: int) returns (more: int)
      requires Accounted(p) && a in p.shares && a !in done && Total(p) > 0
      requires SweptSoFar(p, done, distributed, before, accounts, community - outset)
      requires module' >= p.balance - distributed
      modifies this`accounts, this`module', this`community
      ensures distributed <= more <= p.balance && module' == old(module') - (more - distributed)
      ensures SweptSoFar(p, done + {a}, more, before, accounts, community - outset)
    {
      SweepsOneMore(p, done, a);
      var slice := p.shares[a] * p.balance / Total(p);
      PaySlice(a, slice);
      SweptNext(p, done, distributed, before, old(accounts), old(community) - outset, a, accounts, community - outset);
      more := distributed + slice;
    }

    method PaySlice(a: Address, slice: int)
      requires 0 <= slice <= module'
      modifies this`accounts, this`module', this`community
      ensures module' == old(module') - slice
      ensures community == old(community) + if a == DISTRIBUTION then slice else 0
      ensures forall x :: AccountOf(accounts, x)
                == AccountOf(old(accounts), x) + if x == a && a != DISTRIBUTION then slice else 0
    {
      if slice == 0 {
        return;
      }
      PayFromModule(slice);
      if a == DISTRIBUTION {
        community := community + slice;
      } else {
        accounts := Credited(accounts, a, slice);
      }
    }

    // Records and run shares ageing out.

    /** Deletes the records whose challenge window is over; no tokens move. */
    method SweepExpiredWithheldFeeRecords(now: Time)
      requires Valid()
      modifies this`pools
      ensures Valid() && pools.Keys == old(pools).Keys
      ensures forall c :: c in pools ==>
        pools[c] == old(pools)[c].(records := Unexpired(old(pools)[c].records, now))
    {
      pools := map c | c in pools :: pools[c].(records := Unexpired(pools[c].records, now));
    }

    method PruneEpochShareRecords(olderThan: Time)
      requires Valid()
      modifies this`pools
      ensures Valid() && pools.Keys == old(pools).Keys
      ensures forall c :: c in pools ==> pools[c] == old(pools)[c].(runs := RunsSince(old(pools)[c].runs, olderThan))
    {
      pools := map c | c in pools :: pools[c].(runs := RunsSince(pools[c].runs, olderThan));
    }

    /** Deletes the records of the pairs whose accusations were executed and which have nothing pending. */
    method DeleteSettledRecords(settled: set<Pair>)
      requires Valid()
      modifies this`pools
      ensures Valid() && pools.Keys == old(pools).Keys
      ensures forall c :: c in pools
                ==> pools[c] == old(pools)[c].(records := WithoutSettled(c, old(pools)[c].records, settled))
    {
      pools := map c | c in pools :: pools[c].(records := WithoutSettled(c, pools[c].records, settled));
    }

    /** Re-keys a withheld record to the rotated address, unless one already stands there. */
    method MigrateWithheldRecord(c: ConsumerId, oldAddr: Address, newAddr: Address)
      requires Valid() && oldAddr != newAddr
      modifies this`pools
      ensures Valid()
      ensures forall d :: d != c ==> PoolOf(d) == old(PoolOf(d))
      ensures PoolOf(c) == old(PoolOf(c)).(records := RecordsMoved(old(PoolOf(c)).records, oldAddr, newAddr))
      ensures RecordFollowed(old(PoolOf(c)).records, PoolOf(c).records, oldAddr, newAddr)
    {
      var p := PoolOf(c);
      if oldAddr !in p.records {
        return;
      }
      if newAddr in p.records {
        return;
      }
      PoolAccounted(c);
      var records := p.records[newAddr := p.records[oldAddr]];
      pools := pools[c := p.(records := records - {oldAddr})];
    }

    /** What deletion erases besides the swept balance and shares. */
    method EraseConsumer(c: ConsumerId)
      requires Valid()
      modifies this`pools
      ensures Valid()
      ensures forall d :: d != c ==> PoolOf(d) == old(PoolOf(d))
      ensures PoolOf(c) == old(PoolOf(c)).(records := map[], inDebt := false)
    {
      PoolAccounted(c);
      pools := pools[c := PoolOf(c).(records := map[], inDebt := false)];
    }
  }

  function Unexpired(records: map<Address, Withheld>, now: Time): map<Address, Withheld> {
    map a | a in records && records[a].expiresAt > now :: records[a]
  }

  function RunsSince(runs: map<Time, int>, olderThan: Time): map<Time, int> {
    map t | t in runs && t >= olderThan :: runs[t]
  }

  function WithoutSettled(c: ConsumerId, records: map<Address, Withheld>, settled: set<Pair>): map<Address, Withheld> {
    map a | a in records && Accusations.Pair(c, a) !in settled :: records[a]
  }

  function RecordsMoved(records: map<Address, Withheld>, oldAddr: Address, newAddr: Address): map<Address, Withheld> {
    if oldAddr in records && newAddr !in records then records[newAddr := records[oldAddr]] - {oldAddr} else records
  }

  /**
   * Where the records stand after a rotation: one at the old address alone is now at the new one, with the same
   * amount and expiry; where both addresses have one, or neither does, nothing changes; nor does any other record.
   */
  ghost predicate RecordFollowed(
    records: map<Address, Withheld>, records': map<Address, Withheld>, oldAddr: Address, newAddr: Address)
  {
    && (if oldAddr in records && newAddr !in records then
          newAddr in records' && records'[newAddr] == records[oldAddr] && oldAddr !in records'
        else SameRecord(records, records', oldAddr) && SameRecord(records, records', newAddr))
    && forall a :: a != oldAddr && a != newAddr ==> SameRecord(records, records', a)
  }

  /** Re-keying a record leaves the escrow total as it was. */
  lemma MoveKeepsOutstanding(p: Pool, oldAddr: Address, newAddr: Address, now: Time)
    requires oldAddr != newAddr
    ensures Outstanding(p.(records := RecordsMoved(p.records, oldAddr, newAddr)), now) == Outstanding(p, now)
    ensures Solvent(p, now) ==> Solvent(p.(records := RecordsMoved(p.records, oldAddr, newAddr)), now)
  {
    var moved := RecordsMoved(p.records, oldAddr, newAddr);
    var live, after := LiveAmounts(p.records, now), LiveAmounts(moved, now);
    if oldAddr in p.records && newAddr !in p.records {
      if oldAddr in live {
        assert after - {newAddr} == live - {oldAddr};
        SumSplit(live, oldAddr);
        SumSplit(after, newAddr);
      } else {
        assert after == live;
      }
    }
  }
}
