/**
 * A consumer's fee pool as a value: a share vault over the pool's balance, which also backs the escrow of
 * withheld fees. A pool in a denom other than the fee denom is one without withheld records.
 */
module FeePool {
  import opened Common
  import opened MapSum

  /** The distribution module account: its share of a pool belongs to the community pool. */
  const DISTRIBUTION: Address := 1

  datatype Withheld = Withheld(amount: int, expiresAt: Time)

  datatype Pool = Pool(
    balance: int,
    shares: map<Address, int>,
    total: Option<int>,
    records: map<Address, Withheld>,
    inDebt: bool,
    runs: map<Time, int>)

  const EMPTY_POOL: Pool := Pool(0, map[], None, map[], false, map[])

  function Total(p: Pool): int {
    p.total.GetOr(0)
  }

  function SharesOf(p: Pool, a: Address): int {
    if a in p.shares then p.shares[a] else 0
  }

  /** The stored total is the sum of positive shares, and is stored only when there are shares. */
  ghost predicate Accounted(p: Pool) {
    && p.balance >= 0
    && (forall a :: a in p.shares ==> p.shares[a] > 0)
    && p.total == (if p.shares == map[] then None else Some(Sum(p.shares)))
  }

  lemma SharesWithinTotal(p: Pool, a: Address)
    requires Accounted(p)
    ensures 0 <= SharesOf(p, a) <= Total(p)
    ensures p.shares != map[] ==> Total(p) > 0
  {
    if a in p.shares {
      SumSplit(p.shares, a);
      PositiveSum(p.shares - {a});
    } else if p.shares != map[] {
      PositiveSum(p.shares);
    }
  }

  lemma PositiveSum(m: map<Address, int>)
    requires forall a :: a in m ==> m[a] > 0
    ensures Sum(m) >= 0 && (m != map[] ==> Sum(m) > 0)
  {
    SumNonNegative(m);
    if m != map[] {
      var a :| a in m;
      SumSplit(m, a);
      SumNonNegative(m - {a});
    }
  }

  // The draw: what leaves a pool for how many shares.

  datatype Draw = Draw(burn: int, tokens: int)

  /** At most limit tokens leave; a draw held back by the limit burns shares at the full-balance rate. */
  function FeePoolDraw(shares: int, total: int, balance: int, limit: int): Draw {
    if shares <= 0 || total <= 0 || balance <= 0 || limit <= 0 then Draw(0, 0) else
      var claim := shares * balance / total;
      if claim <= limit then Draw(shares, claim) else
        var burn := limit * total / balance;
        if burn <= 0 then Draw(0, 0) else Draw(burn, burn * balance / total)
  }

  lemma FloorBounds(x: int, d: int)
    requires d > 0
    ensures (x / d) * d <= x < (x / d) * d + d
  {
    assert x == (x / d) * d + x % d;
  }

  lemma MulMonotone(a: int, b: int, c: int)
    requires a <= b && c >= 0
    ensures a * c <= b * c
  {
  }

  lemma MulCancel(a: int, b: int, c: int)
    ensures c > 0 && a * c <= b * c ==> a <= b
  {
    if c > 0 && a > b {
      MulMonotone(b + 1, a, c);
      assert (b + 1) * c == b * c + c;
    }
  }

  lemma MulCancelStrict(a: int, b: int, c: int)
    ensures c > 0 && a * c < b * c ==> a < b
  {
    if c > 0 && a >= b {
      MulMonotone(b, a, c);
    }
  }

  /**
   * A draw never burns more shares than held nor pays more than the limit, the balance per share never
   * falls, and shares are left over unless the claim was met in full.
   */
  lemma DrawIsFair(shares: int, total: int, balance: int, limit: int)
    requires 0 <= shares <= total && 0 <= balance
    ensures var d := FeePoolDraw(shares, total, balance, limit);
            && 0 <= d.burn <= shares && 0 <= d.tokens && (limit > 0 ==> d.tokens <= limit) && d.tokens <= balance
            && (balance - d.tokens) * total >= balance * (total - d.burn)
            && (d.burn == shares && shares > 0 ==> d.tokens == shares * balance / total)
  {
    if shares > 0 && balance > 0 && limit > 0 {
      WholeDraw(shares, total, balance);
      if shares * balance / total > limit {
        LimitedDraw(shares, total, balance, limit);
      }
    } else {
      assert FeePoolDraw(shares, total, balance, limit) == Draw(0, 0);
    }
  }

  lemma WholeDraw(shares: int, total: int, balance: int)
    requires 0 < shares <= total && balance > 0
    ensures var claim := shares * balance / total;
            0 <= claim <= balance && (balance - claim) * total >= balance * (total - shares)
  {
    var claim := shares * balance / total;
    FloorBounds(shares * balance, total);
    MulMonotone(0, shares, balance);
    NonNegativeQuotient(shares * balance, total);
    MulMonotone(shares, total, balance);
    MulCancel(claim, balance, total);
    FairStep(shares, total, balance, claim);
  }

  lemma FairStep(burn: int, total: int, balance: int, tokens: int)
    requires tokens * total <= burn * balance
    ensures (balance - tokens) * total >= balance * (total - burn)
  {
    assert (balance - tokens) * total == balance * total - tokens * total;
    assert balance * (total - burn) == balance * total - burn * balance;
  }

  lemma LimitedDraw(shares: int, total: int, balance: int, limit: int)
    requires 0 < shares <= total && balance > 0 && limit > 0 && shares * balance / total > limit
    ensures var burn, tokens := limit * total / balance, (limit * total / balance) * balance / total;
            && 0 <= burn < shares && 0 <= tokens <= limit && tokens <= balance
            && (balance - tokens) * total >= balance * (total - burn)
  {
    var burn := LimitedBurn(shares, total, balance, limit);
    LimitedTokens(burn, total, balance, limit);
    FloorBounds(burn * balance, total);
    FairStep(burn, total, balance, burn * balance / total);
  }

  /** The shares burned for the limit are fewer than those held. */
  lemma LimitedBurn(shares: int, total: int, balance: int, limit: int) returns (burn: int)
    requires 0 < shares <= total && balance > 0 && limit > 0 && shares * balance / total > limit
    ensures burn == limit * total / balance
    ensures 0 <= burn < shares && burn * balance <= limit * total && limit < balance
  {
    burn := limit * total / balance;
    FloorBounds(limit * total, balance);
    FloorBounds(shares * balance, total);
    MulMonotone(limit + 1, shares * balance / total, total);
    assert (limit + 1) * total == limit * total + total;
    MulCancelStrict(burn, shares, balance);
    MulMonotone(0, limit, total);
    NonNegativeQuotient(limit * total, balance);
    MulMonotone(shares, total, balance);
    MulCancelStrict(limit, balance, total);
  }

  lemma LimitedTokens(burn: int, total: int, balance: int, limit: int)
    requires total > 0 && balance > 0 && 0 <= burn && burn * balance <= limit * total && limit < balance
    ensures 0 <= burn * balance / total <= limit && burn * balance / total <= balance
  {
    var tokens := burn * balance / total;
    FloorBounds(burn * balance, total);
    MulMonotone(0, burn, balance);
    NonNegativeQuotient(burn * balance, total);
    MulCancel(tokens, limit, total);
  }

  lemma NonNegativeQuotient(x: int, d: int)
    requires x >= 0 && d > 0
    ensures x / d >= 0
  {
  }

  /**
   * Of shares, burn of them leave for what they are worth, to the last whole token, within the limit; unless they are
   * all burned, one more is worth more than the limit.
   */
  ghost predicate DrawsAmply(shares: int, total: int, balance: int, limit: int, burn: int, tokens: int) {
    && 0 < burn <= shares && tokens <= limit
    && tokens * total <= burn * balance < (tokens + 1) * total
    && (burn < shares ==> limit * total < (burn + 1) * balance)
  }

  /** Not even one share fits within the limit, nor do all of them, rounded down to whole tokens. */
  ghost predicate NothingFits(shares: int, total: int, balance: int, limit: int) {
    limit * total < balance && (limit + 1) * total <= shares * balance
  }

  /** A draw gives whoever draws all that the limit allows, and gives nothing only if nothing fits. */
  lemma DrawIsAmple(shares: int, total: int, balance: int, limit: int)
    requires 0 <= shares <= total && 0 <= balance
    ensures var d := FeePoolDraw(shares, total, balance, limit);
            && (d.burn > 0 ==> DrawsAmply(shares, total, balance, limit, d.burn, d.tokens))
            && (d.burn <= 0 ==> d == Draw(0, 0))
            && (d.burn > 0
                <==> shares > 0 && balance > 0 && limit > 0 && !NothingFits(shares, total, balance, limit))
  {
    if shares > 0 && balance > 0 && limit > 0 {
      FloorBounds(shares * balance, total);
      assert (shares * balance / total + 1) * total == (shares * balance / total) * total + total;
      if shares * balance / total > limit {
        LimitedDrawIsAmple(shares, total, balance, limit);
      } else {
        MulMonotone(shares * balance / total + 1, limit + 1, total);
      }
    }
  }

  lemma LimitedDrawIsAmple(shares: int, total: int, balance: int, limit: int)
    requires 0 < shares <= total && balance > 0 && limit > 0 && shares * balance / total > limit
    ensures var burn, tokens := limit * total / balance, (limit * total / balance) * balance / total;
            && (burn > 0 ==> DrawsAmply(shares, total, balance, limit, burn, tokens))
            && (burn <= 0 <==> NothingFits(shares, total, balance, limit))
  {
    var burn := LimitedBurn(shares, total, balance, limit);
    LimitedTokens(burn, total, balance, limit);
    FloorBounds(limit * total, balance);
    assert (burn + 1) * balance == burn * balance + balance;
    FloorBounds(burn * balance, total);
    assert (burn * balance / total + 1) * total == (burn * balance / total) * total + total;
    FloorBounds(shares * balance, total);
    MulMonotone(limit + 1, shares * balance / total, total);
    if burn > 0 {
      MulMonotone(1, burn, balance);
    }
  }

  // Escrow.

  /** The amounts still reserved for a successful challenge. */
  function LiveAmounts(records: map<Address, Withheld>, now: Time): map<Address, int> {
    map a | a in records && records[a].expiresAt > now :: records[a].amount
  }

  ghost function Outstanding(p: Pool, now: Time): int {
    Sum(LiveAmounts(p.records, now))
  }

  ghost predicate SoundRecords(records: map<Address, Withheld>) {
    forall a :: a in records ==> records[a].amount >= 0
  }

  ghost predicate Sound(p: Pool) {
    Accounted(p) && SoundRecords(p.records)
  }

  /** The balance covers every unexpired record. */
  ghost predicate Solvent(p: Pool, now: Time) {
    SoundRecords(p.records) && p.balance >= Outstanding(p, now)
  }

  lemma OutstandingNonNegative(p: Pool, now: Time)
    requires SoundRecords(p.records)
    ensures Outstanding(p, now) >= 0
  {
    SumNonNegative(LiveAmounts(p.records, now));
  }

  /** Records only expire as time passes. */
  lemma SolventLater(p: Pool, now: Time, later: Time)
    requires Solvent(p, now) && now <= later
    ensures Solvent(p, later)
  {
    SumAtMost(LiveAmounts(p.records, later), LiveAmounts(p.records, now));
  }

  /** Tokens that arrive without a deposit. */
  function Received(p: Pool, amount: int): Pool {
    p.(balance := p.balance + amount)
  }

  /** Neither does a larger balance. */
  lemma MoreBalance(p: Pool, amount: int, now: Time)
    requires amount >= 0
    ensures Solvent(p, now) ==> Solvent(Received(p, amount), now)
  {
  }

  /** Dropping records never hurts. */
  lemma FewerRecords(p: Pool, records: map<Address, Withheld>, now: Time)
    requires Solvent(p, now)
    requires records.Keys <= p.records.Keys && forall a :: a in records ==> records[a] == p.records[a]
    ensures Solvent(p.(records := records), now)
  {
    SumAtMost(LiveAmounts(records, now), LiveAmounts(p.records, now));
  }

  // Deposits.

  function Cleared(p: Pool): Pool {
    p.(shares := map[], total := None)
  }

  function Absorbed(p: Pool): Pool {
    p.(shares := map[DISTRIBUTION := p.balance], total := Some(p.balance))
  }

  /** The pool as a deposit finds it: worthless shares cleared, an unaccounted balance booked. */
  function Settled(p: Pool): Pool {
    var q := if p.balance == 0 && Total(p) > 0 then Cleared(p) else p;
    if Total(q) == 0 && q.balance > 0 then Absorbed(q) else q
  }

  /** Of a settled pool, which has shares exactly when it has a balance. */
  function SharesToMint(p: Pool, amount: int): int {
    if Total(p) == 0 || p.balance == 0 then amount else amount * Total(p) / p.balance
  }

  /** The pool once the shares are credited and the deposit has landed. */
  function Deposited(p: Pool, depositor: Address, amount: int, minted: int): Pool {
    p.(shares := p.shares[depositor := SharesOf(p, depositor) + minted],
       total := Some(Total(p) + minted),
       balance := p.balance + amount)
  }

  lemma SumOne(a: Address, x: int)
    ensures Sum(map[a := x]) == x
  {
    SumSplit(map[a := x], a);
    assert map[a := x] - {a} == map[];
  }

  /** Settling leaves every token accounted for, even over share records whose total was lost. */
  lemma SettledAccounted(p: Pool)
    requires Accounted(p) || (p.balance > 0 && p.total.None?)
    ensures Accounted(Settled(p)) && Settled(p).balance == p.balance
    ensures Total(Settled(p)) >= 0 && (Total(Settled(p)) == 0 <==> p.balance == 0)
    ensures Total(p) > 0 && p.balance > 0 ==> Settled(p) == p
    ensures Accounted(p) && p.balance == 0 ==> Settled(p).shares == map[]
    ensures Total(p) == 0 && p.balance > 0 ==> Settled(p).shares == map[DISTRIBUTION := p.balance]
  {
    if p.balance > 0 {
      SumOne(DISTRIBUTION, p.balance);
    }
    if Accounted(p) {
      PositiveSum(p.shares);
    }
  }

  /** Depositing keeps the accounts, the escrow and the price per share of everyone else. */
  lemma DepositIsFair(p: Pool, depositor: Address, amount: int)
    requires Accounted(p) && (Total(p) == 0 <==> p.balance == 0) && amount > 0
    requires SharesToMint(p, amount) > 0
    ensures var minted := SharesToMint(p, amount);
            var q := Deposited(p, depositor, amount, minted);
            Accounted(q) && q.balance * Total(p) >= p.balance * Total(q)
  {
    var minted := SharesToMint(p, amount);
    SumUpdate(p.shares, depositor, SharesOf(p, depositor) + minted);
    if Total(p) > 0 {
      FloorBounds(amount * Total(p), p.balance);
      MintPrice(p.balance, Total(p), amount, minted);
    }
  }

  /** From p to q: the deposit has landed and its depositor holds as many more shares as it pays for. */
  ghost predicate Credits(p: Pool, q: Pool, depositor: Address, amount: int) {
    var minted := SharesOf(q, depositor) - SharesOf(p, depositor);
    && minted > 0 && q.balance == p.balance + amount && Total(q) == Total(p) + minted
    && (if p.balance == 0 then minted == amount
        else minted * p.balance <= amount * Total(p) < (minted + 1) * p.balance)
    && (forall a :: a != depositor ==> SharesOf(q, a) == SharesOf(p, a))
    && q.records == p.records && q.runs == p.runs && q.inDebt == p.inDebt
  }

  /** A deposit is credited all the shares it pays for; refused only if that is none. */
  lemma DepositIsAmple(p: Pool, depositor: Address, amount: int)
    requires Accounted(p) && (Total(p) == 0 <==> p.balance == 0) && amount > 0
    ensures var minted := SharesToMint(p, amount);
            if minted > 0 then Credits(p, Deposited(p, depositor, amount, minted), depositor, amount)
            else p.balance > 0 && amount * Total(p) < p.balance
  {
    SharesWithinTotal(p, depositor);
    if p.balance > 0 {
      var minted := SharesToMint(p, amount);
      FloorBounds(amount * Total(p), p.balance);
      assert (minted + 1) * p.balance == minted * p.balance + p.balance;
      if minted <= 0 {
        MulMonotone(minted, 0, p.balance);
      }
    }
  }

  lemma MintPrice(balance: int, total: int, amount: int, minted: int)
    requires minted * balance <= amount * total
    ensures (balance + amount) * total >= balance * (total + minted)
  {
    assert (balance + amount) * total == balance * total + amount * total;
    assert balance * (total + minted) == balance * total + minted * balance;
  }

  lemma DepositStaysSolvent(p: Pool, depositor: Address, amount: int, minted: int, now: Time)
    requires Solvent(p, now) && amount >= 0
    ensures Solvent(Deposited(p, depositor, amount, minted), now) && Solvent(Settled(p), now)
  {
  }

  /** A deposit into the pool as it stands, settled first, never touches the escrow. */
  lemma DepositStaysSolventWhen(p: Pool, depositor: Address, amount: int, now: Time)
    requires amount >= 0
    ensures var q := Deposited(Settled(p), depositor, amount, SharesToMint(Settled(p), amount));
            q.records == p.records && (Solvent(p, now) ==> Solvent(q, now))
  {
    if Solvent(p, now) {
      DepositStaysSolvent(p, depositor, amount, SharesToMint(Settled(p), amount), now);
    }
  }

  /** The shares a deposit mints are worth at most the deposit, so taking it straight out never profits. */
  lemma NoProfit(p: Pool, amount: int, limit: int)
    requires Total(p) >= 0 && p.balance >= 0 && amount > 0
    requires Total(p) == 0 <==> p.balance == 0
    ensures var minted := SharesToMint(p, amount);
            minted > 0 ==> FeePoolDraw(minted, Total(p) + minted, p.balance + amount, limit).tokens <= amount
  {
    var minted, total, balance := SharesToMint(p, amount), Total(p), p.balance;
    if minted > 0 {
      var total', balance' := total + minted, balance + amount;
      if total > 0 {
        FloorBounds(amount * total, balance);
      }
      assert minted * balance <= amount * total;
      assert minted * balance' == minted * balance + minted * amount;
      assert amount * total' == amount * total + amount * minted;
      DrawIsFair(minted, total', balance', limit);
      WorthAtMost(minted, total', balance', limit, amount);
    }
  }

  lemma WorthAtMost(shares: int, total: int, balance: int, limit: int, amount: int)
    requires 0 < shares <= total && balance >= 0 && shares * balance <= amount * total && amount >= 0
    ensures FeePoolDraw(shares, total, balance, limit).tokens <= amount
  {
    var d := FeePoolDraw(shares, total, balance, limit);
    if balance > 0 && limit > 0 {
      DrawIsFair(shares, total, balance, limit);
      TokensWithinShares(shares, total, balance, limit);
      MulMonotone(d.burn, shares, balance);
      assert d.tokens * total <= amount * total;
      MulCancel(d.tokens, amount, total);
    }
  }

  lemma TokensWithinShares(shares: int, total: int, balance: int, limit: int)
    requires 0 < shares <= total && balance > 0 && limit > 0
    ensures var d := FeePoolDraw(shares, total, balance, limit); d.tokens * total <= d.burn * balance
  {
    FloorBounds(shares * balance, total);
    FloorBounds((limit * total / balance) * balance, total);
  }

  // Withdrawals.

  /** The pool once the shares are burned and the tokens have left. */
  function Withdrawn(p: Pool, depositor: Address, d: Draw): Pool {
    var left := SharesOf(p, depositor) - d.burn;
    p.(shares := if left == 0 then p.shares - {depositor} else p.shares[depositor := left],
       total := if Total(p) == d.burn then None else Some(Total(p) - d.burn),
       balance := p.balance - d.tokens)
  }

  lemma WithdrawalIsFair(p: Pool, depositor: Address, limit: int)
    requires Accounted(p) && depositor in p.shares
    ensures var d := FeePoolDraw(p.shares[depositor], Total(p), p.balance, limit);
            var q := Withdrawn(p, depositor, d);
            && Accounted(q)
            && q.balance * Total(p) >= p.balance * Total(q)
            && (d.burn > 0 && Total(q) == 0 ==> q.balance == 0)
  {
    SharesWithinTotal(p, depositor);
    var shares := p.shares[depositor];
    DrawIsFair(shares, Total(p), p.balance, limit);
    var d := FeePoolDraw(shares, Total(p), p.balance, limit);
    if d.burn == shares {
      SumSplit(p.shares, depositor);
      PositiveSum(p.shares - {depositor});
      assert (p.shares - {depositor} == map[]) == (Sum(p.shares) == shares);
      if shares == Total(p) {
        AllOfIt(p.balance, shares);
      }
    } else {
      SumUpdate(p.shares, depositor, shares - d.burn);
    }
  }

  lemma AllOfIt(x: int, d: int)
    requires d > 0
    ensures d * x / d == x
  {
    var q := d * x / d;
    FloorBounds(d * x, d);
    MulCancel(q, x, d);
    assert (q + 1) * d == q * d + d;
    MulCancelStrict(x, q + 1, d);
  }

  /** A withdrawal limited to the unreserved balance leaves the escrow covered. */
  lemma WithdrawalStaysSolvent(p: Pool, depositor: Address, limit: int, now: Time)
    requires Accounted(p) && depositor in p.shares && Solvent(p, now)
    requires 0 < limit <= p.balance - Outstanding(p, now)
    ensures Solvent(Withdrawn(p, depositor, FeePoolDraw(p.shares[depositor], Total(p), p.balance, limit)), now)
  {
    SharesWithinTotal(p, depositor);
    DrawIsFair(p.shares[depositor], Total(p), p.balance, limit);
  }

  /** What a withdrawal draws: at most the amount asked for and at most what is not held in escrow. */
  ghost function DrawFor(p: Pool, depositor: Address, amount: int, now: Time): Draw {
    FeePoolDraw(SharesOf(p, depositor), Total(p), p.balance, Min(amount, p.balance - Outstanding(p, now)))
  }

  /** A depositor may withdraw while the pool holds something unreserved and the amount burns a share. */
  ghost predicate Withdrawable(p: Pool, depositor: Address, amount: int, now: Time) {
    depositor in p.shares && p.balance > Outstanding(p, now) && DrawFor(p, depositor, amount, now).burn > 0
  }

  /** What a withdrawal takes is at most what was asked for and at most what is unreserved. */
  lemma DrawWithinLimits(p: Pool, depositor: Address, amount: int, now: Time)
    requires Sound(p) && Withdrawable(p, depositor, amount, now)
    ensures var d := DrawFor(p, depositor, amount, now);
            && d.tokens <= amount && d.tokens <= p.balance - Outstanding(p, now)
            && Withdrawn(p, depositor, d).records == p.records
            && (Solvent(p, now) ==> Solvent(Withdrawn(p, depositor, d), now))
  {
    WithdrawalKeepsEscrow(p, depositor, amount, now);
  }

  lemma WithdrawalKeepsEscrow(p: Pool, depositor: Address, amount: int, now: Time)
    requires Accounted(p) && depositor in p.shares
    requires Min(amount, p.balance - Outstanding(p, now)) > 0
    ensures var limit := Min(amount, p.balance - Outstanding(p, now));
            var d := FeePoolDraw(SharesOf(p, depositor), Total(p), p.balance, limit);
            && d.tokens <= limit && Withdrawn(p, depositor, d).records == p.records
            && (Solvent(p, now) ==> Solvent(Withdrawn(p, depositor, d), now))
  {
    var limit := Min(amount, p.balance - Outstanding(p, now));
    SharesWithinTotal(p, depositor);
    DrawIsFair(p.shares[depositor], Total(p), p.balance, limit);
    if Solvent(p, now) {
      OutstandingNonNegative(p, now);
      WithdrawalStaysSolvent(p, depositor, limit, now);
    }
  }

  /** What of the pool a depositor who asks for the amount could get at most. */
  ghost function Limit(p: Pool, amount: int, now: Time): int {
    Min(amount, p.balance - Outstanding(p, now))
  }

  /** From p to q: tokens have left for shares of the depositor, as many as the limit allows; nothing else changed. */
  ghost predicate Withdraws(p: Pool, q: Pool, depositor: Address, limit: int, tokens: int) {
    var burn := SharesOf(p, depositor) - SharesOf(q, depositor);
    && DrawsAmply(SharesOf(p, depositor), Total(p), p.balance, limit, burn, tokens)
    && q.balance == p.balance - tokens && Total(q) == Total(p) - burn
    && (forall a :: a != depositor ==> SharesOf(q, a) == SharesOf(p, a))
    && q.records == p.records && q.runs == p.runs && q.inDebt == p.inDebt
  }

  /** Nothing can be withdrawn: no shares, nothing unreserved, nothing asked for, or nothing that fits. */
  ghost predicate Unwithdrawable(p: Pool, depositor: Address, amount: int, now: Time) {
    || SharesOf(p, depositor) == 0 || Limit(p, amount, now) <= 0
    || NothingFits(SharesOf(p, depositor), Total(p), p.balance, Limit(p, amount, now))
  }

  /** A withdrawal gives its depositor all it can, and is refused only if it could give nothing. */
  lemma WithdrawalIsAmple(p: Pool, depositor: Address, amount: int, now: Time)
    requires Sound(p)
    ensures Withdrawable(p, depositor, amount, now) <==> !Unwithdrawable(p, depositor, amount, now)
    ensures Withdrawable(p, depositor, amount, now) ==>
      var d := DrawFor(p, depositor, amount, now);
      Withdraws(p, Withdrawn(p, depositor, d), depositor, Limit(p, amount, now), d.tokens)
  {
    SharesWithinTotal(p, depositor);
    OutstandingNonNegative(p, now);
    DrawIsAmple(SharesOf(p, depositor), Total(p), p.balance, Limit(p, amount, now));
  }

  /** What is quoted is what the depositor could withdraw at once, or nothing if it could withdraw nothing. */
  ghost predicate Quoted(p: Pool, a: Address, now: Time, tokens: int) {
    if Unwithdrawable(p, a, p.balance, now) then tokens == 0
    else exists burn :: DrawsAmply(SharesOf(p, a), Total(p), p.balance, Limit(p, p.balance, now), burn, tokens)
  }

  lemma ClaimIsQuoted(p: Pool, a: Address, now: Time)
    requires Sound(p)
    ensures Quoted(p, a, now, Claim(p, a, now))
    ensures forall amount :: amount >= p.balance ==> DrawFor(p, a, amount, now).tokens == Claim(p, a, now)
  {
    SharesWithinTotal(p, a);
    OutstandingNonNegative(p, now);
    DrawIsAmple(SharesOf(p, a), Total(p), p.balance, Limit(p, p.balance, now));
  }

  /** A depositor's claim at this block. */
  ghost function Claim(p: Pool, a: Address, now: Time): int {
    FeePoolDraw(SharesOf(p, a), Total(p), p.balance, p.balance - Outstanding(p, now)).tokens
  }

  /** Every holder's slice of the full balance. */
  function Slices(shares: map<Address, int>, balance: int, total: int): map<Address, int>
    requires total != 0
  {
    map a | a in shares :: shares[a] * balance / total
  }

  /** Every slice is a holder's part of the balance, to the last whole token. */
  lemma SliceOfEach(shares: map<Address, int>, balance: int, total: int, a: Address)
    requires total > 0 && a in shares
    ensures var slice := Slices(shares, balance, total)[a];
            slice * total <= shares[a] * balance < (slice + 1) * total
  {
    FloorBounds(shares[a] * balance, total);
    assert (shares[a] * balance / total + 1) * total == (shares[a] * balance / total) * total + total;
  }

  /** The slices of a balance leave a dust smaller than the number of holders. */
  lemma {:induction false} SlicesAndDust(shares: map<Address, int>, balance: int, total: int)
    requires total > 0 && balance >= 0
    ensures Sum(Slices(shares, balance, total)) * total <= Sum(shares) * balance
    ensures shares != map[] ==> Sum(shares) * balance < (Sum(Slices(shares, balance, total)) + |shares|) * total
    decreases |shares|
  {
    if shares != map[] {
      var a :| a in shares;
      var rest := shares - {a};
      SlicesAndDust(rest, balance, total);
      SliceOff(shares, a, balance, total);
      FloorBounds(shares[a] * balance, total);
      SliceStep(shares[a] * balance / total, Sum(Slices(rest, balance, total)), Sum(Slices(shares, balance, total)),
                shares[a], Sum(rest), Sum(shares), |rest|, balance, total, rest == map[]);
    }
  }

  lemma SliceOff(shares: map<Address, int>, a: Address, balance: int, total: int)
    requires total > 0 && a in shares
    ensures Sum(shares) == shares[a] + Sum(shares - {a}) && |shares| == |shares - {a}| + 1
    ensures Sum(Slices(shares, balance, total))
        == shares[a] * balance / total + Sum(Slices(shares - {a}, balance, total))
  {
    var slices := Slices(shares, balance, total);
    assert slices - {a} == Slices(shares - {a}, balance, total);
    SumSplit(shares, a);
    SumSplit(slices, a);
    assert (shares - {a})[a := shares[a]] == shares;
  }

  lemma SlicesNonNegative(shares: map<Address, int>, balance: int, total: int)
    requires total > 0 && balance >= 0 && forall a :: a in shares ==> shares[a] > 0
    ensures forall a :: a in shares ==> Slices(shares, balance, total)[a] >= 0
  {
    forall a | a in shares ensures shares[a] * balance / total >= 0 {
      MulMonotone(0, shares[a], balance);
      NonNegativeQuotient(shares[a] * balance, total);
    }
  }

  /** One more slice: all slices add up to allSlices, all shares to allShares. */
  lemma SliceStep(
    slice: int, slices: int, allSlices: int, share: int, shares: int, allShares: int, n: nat, balance: int, total: int,
    last: bool)
    requires allSlices == slice + slices && allShares == share + shares
    requires total > 0 && slice * total <= share * balance < slice * total + total
    requires slices * total <= shares * balance
    requires if last then shares == 0 && slices == 0 && n == 0 else shares * balance < (slices + n) * total
    ensures allSlices * total <= allShares * balance < (allSlices + (n + 1)) * total
  {
    assert allSlices * total == slice * total + slices * total;
    assert allShares * balance == share * balance + shares * balance;
    assert (allSlices + (n + 1)) * total == slice * total + (slices + n) * total + total;
  }

  /** A sweep's slices never exceed the balance, and the dust is smaller than the number of holders. */
  lemma SweepDust(p: Pool)
    requires Accounted(p) && p.shares != map[]
    ensures Total(p) > 0
    ensures 0 <= p.balance - Sum(Slices(p.shares, p.balance, Total(p))) < |p.shares|
  {
    PositiveSum(p.shares);
    var total, slices := Total(p), Sum(Slices(p.shares, p.balance, Total(p)));
    SlicesAndDust(p.shares, p.balance, total);
    MulCancel(slices, p.balance, total);
    MulCancelStrict(p.balance, slices + |p.shares|, total);
  }

  /** All claims together never exceed the balance. */
  lemma ClaimsWithinBalance(p: Pool, now: Time, claims: map<Address, int>)
    requires Accounted(p)
    requires claims.Keys == p.shares.Keys && forall a :: a in claims ==> claims[a] == Claim(p, a, now)
    ensures Sum(claims) <= p.balance
  {
    if p.shares == map[] {
      assert claims == map[];
    } else {
      SweepDust(p);
      var slices := Slices(p.shares, p.balance, Total(p));
      forall a | a in claims ensures claims[a] <= slices[a] {
        SharesWithinTotal(p, a);
        ClaimWithinSlice(p.shares[a], Total(p), p.balance, p.balance - Outstanding(p, now));
      }
      SumAtMost(claims, slices);
    }
  }

  lemma ClaimWithinSlice(shares: int, total: int, balance: int, limit: int)
    requires 0 < shares <= total && balance >= 0
    ensures FeePoolDraw(shares, total, balance, limit).tokens <= shares * balance / total
  {
    assert shares * balance >= 0;
    NonNegativeQuotient(shares * balance, total);
    var d := FeePoolDraw(shares, total, balance, limit);
    if balance > 0 && limit > 0 && shares * balance / total > limit {
      DrawIsFair(shares, total, balance, limit);
    }
  }

  // Distribution.

  datatype Bonded = Bonded(cons: ValidatorAddress, account: Address)

  predicate DistinctValidators(bonded: seq<Bonded>) {
    forall i, j :: 0 <= i < j < |bonded| ==> bonded[i].cons != bonded[j].cons
  }

  /** One more share escrowed for a validator: added to a live record, replacing an expired one. */
  function Recorded(records: map<Address, Withheld>, a: Address, amount: int, now: Time, window: Time)
    : map<Address, Withheld>
  {
    var live := if a in records && records[a].expiresAt > now then records[a].amount else 0;
    records[a := Withheld(amount + live, now + window)]
  }

  function RecordedAll(records: map<Address, Withheld>, excluded: seq<Address>, amount: int, now: Time, window: Time)
    : map<Address, Withheld>
  {
    if excluded == [] then records
    else Recorded(RecordedAll(records, excluded[..|excluded| - 1], amount, now, window),
                  excluded[|excluded| - 1], amount, now, window)
  }

  lemma RecordedOutstanding(records: map<Address, Withheld>, a: Address, amount: int, now: Time, window: Time)
    requires amount >= 0 && SoundRecords(records)
    ensures var more := Recorded(records, a, amount, now, window);
            && Sum(LiveAmounts(more, now)) <= Sum(LiveAmounts(records, now)) + amount
            && (window > 0 ==> Sum(LiveAmounts(more, now)) == Sum(LiveAmounts(records, now)) + amount)
            && SoundRecords(more)
  {
    var live, more := LiveAmounts(records, now), Recorded(records, a, amount, now, window);
    var after := LiveAmounts(more, now);
    if window > 0 {
      assert after == live[a := more[a].amount];
      SumUpdate(live, a, more[a].amount);
    } else {
      assert after == live - {a};
      SumAtMost(after, live);
    }
  }

  lemma TimesOneMore(amount: int, n: nat)
    ensures amount * (n + 1) == amount * n + amount
  {
  }

  lemma {:induction false} RecordedAllOutstanding(
    records: map<Address, Withheld>, excluded: seq<Address>, amount: int, now: Time, window: Time)
    requires amount >= 0 && SoundRecords(records)
    ensures var more := RecordedAll(records, excluded, amount, now, window);
            && Sum(LiveAmounts(more, now)) <= Sum(LiveAmounts(records, now)) + amount * |excluded|
            && (window > 0 ==> Sum(LiveAmounts(more, now)) == Sum(LiveAmounts(records, now)) + amount * |excluded|)
            && SoundRecords(more)
    decreases |excluded|
  {
    if excluded != [] {
      var init := excluded[..|excluded| - 1];
      RecordedAllOutstanding(records, init, amount, now, window);
      RecordedOutstanding(RecordedAll(records, init, amount, now, window), excluded[|excluded| - 1], amount, now,
                          window);
      TimesOneMore(amount, |init|);
    }
  }

  /** What a validator has withheld that has not expired. */
  function UnexpiredAmount(records: map<Address, Withheld>, a: Address, now: Time): int {
    if a in records && records[a].expiresAt > now then records[a].amount else 0
  }

  ghost predicate SameRecord(records: map<Address, Withheld>, records': map<Address, Withheld>, a: Address) {
    (a in records' <==> a in records) && (a in records' ==> records'[a] == records[a])
  }

  /**
   * One more share is withheld from each of who, on top of what it has unexpired and for a whole window; no other
   * record changes.
   */
  ghost predicate Withholds(
    records: map<Address, Withheld>, records': map<Address, Withheld>, who: set<Address>, share: int, now: Time,
    window: Time)
  {
    forall a ::
      if a in who then
        && a in records' && records'[a].expiresAt == now + window
        && records'[a].amount == UnexpiredAmount(records, a, now) + share
      else SameRecord(records, records', a)
  }

  /** The validators of a list, and that none is listed twice. */
  ghost predicate Lists(list: seq<Address>, who: set<Address>) {
    && (forall a :: a in list <==> a in who) && |list| == |who|
    && forall i, j :: 0 <= i < j < |list| ==> list[i] != list[j]
  }

  lemma ListsButLast(list: seq<Address>, who: set<Address>)
    requires Lists(list, who) && list != []
    ensures Lists(list[..|list| - 1], who - {list[|list| - 1]}) && list[|list| - 1] in who
  {
    assert list == list[..|list| - 1] + [list[|list| - 1]];
  }

  lemma {:induction false} RecordedEach(
    records: map<Address, Withheld>, excluded: seq<Address>, who: set<Address>, share: int, now: Time, window: Time)
    requires Lists(excluded, who)
    ensures Withholds(records, RecordedAll(records, excluded, share, now, window), who, share, now, window)
    decreases |excluded|
  {
    if excluded != [] {
      ListsButLast(excluded, who);
      RecordedEach(records, excluded[..|excluded| - 1], who - {excluded[|excluded| - 1]}, share, now, window);
    }
  }

  /** What a run does for one consumer, given which validators are excluded and whether the transfer succeeds. */
  ghost function Distributed(
    p: Pool, fee: int, eligible: seq<Address>, excluded: seq<Address>, sends: bool, now: Time, window: Time): Pool
    requires |eligible| + |excluded| > 0
  {
    var share := fee / (|eligible| + |excluded|);
    if share == 0 then p.(inDebt := p.inDebt || fee > 0, runs := p.runs[now := 0])
    else if p.balance - Outstanding(p, now) < fee then p.(inDebt := true, runs := p.runs[now := 0])
    else if eligible != [] && !sends then p.(runs := p.runs[now := 0])
    else p.(balance := p.balance - share * |eligible|, inDebt := false, runs := p.runs[now := share],
            records := RecordedAll(p.records, excluded, share, now, window))
  }

  /** A run pays only from what is not escrowed, and what it withholds it keeps. */
  lemma DistributionStaysSolvent(
    p: Pool, fee: int, eligible: seq<Address>, excluded: seq<Address>, sends: bool, now: Time, window: Time)
    requires SoundRecords(p.records) && fee >= 0 && |eligible| + |excluded| > 0
    ensures var q := Distributed(p, fee, eligible, excluded, sends, now, window);
            && (Sound(p) ==> Sound(q)) && (Solvent(p, now) ==> Solvent(q, now)) && q.balance <= p.balance
  {
    var share := fee / (|eligible| + |excluded|);
    SharesWithinFee(fee, |eligible|, |excluded|);
    RecordedAllOutstanding(p.records, excluded, share, now, window);
    OutstandingNonNegative(p, now);
  }

  /** Equal shares never add up to more than the fee. */
  lemma SharesWithinFee(fee: int, m: nat, n: nat)
    requires fee >= 0 && m + n > 0
    ensures var share := fee / (m + n); share >= 0 && share * m >= 0 && share * n >= 0 && share * m + share * n <= fee
  {
    var share := fee / (m + n);
    FloorBounds(fee, m + n);
    NonNegativeQuotient(fee, m + n);
    MulMonotone(0, share, m);
    MulMonotone(0, share, n);
    assert share * (m + n) == share * m + share * n;
  }
}
