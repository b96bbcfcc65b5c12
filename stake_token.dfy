/** The staking program's `stake_token` instruction: every call first accrues
    simple interest on the caller's record, stamps it with the current time,
    and then stakes (tokens in, balance up) or unstakes (balance checked,
    tokens out, balance down). */
module StakeToken {
  import opened Common
  import opened Token

  type Positive = n: nat | n > 0 witness 1

  /** The values of `STAKING_APR` (percent per year) and `SECOND_PER_YEAR`,
      compile-time constants of the staking program. */
  datatype Rates = Rates(stakingApr: Positive, secondPerYear: Positive)

  /** The contents of a `UserTokenInfo` account. */
  datatype StakeRecord = StakeRecord(amount: U64, lastUpdateTime: U64)

  /** The addresses passed to the instruction: the signing user, the user's
      token account, the staking vault, and the vault's derived authority. */
  datatype StakeKeys = StakeKeys(user: Pubkey, userAta: Pubkey, stakingVault: Pubkey, vaultAuthority: Pubkey)

  /** The per-user `UserTokenInfo` account, written in place by the instruction. */
  class UserTokenInfo {
    var amount: U64
    var lastUpdateTime: U64

    function Record(): StakeRecord
      reads this
    {
      StakeRecord(amount, lastUpdateTime)
    }
  }

  /** Seconds since the last update; a record never updated (time 0) earns nothing. */
  function Elapsed(rec: StakeRecord, now: U64): U64
    requires rec.lastUpdateTime == 0 || rec.lastUpdateTime <= now
  {
    if rec.lastUpdateTime == 0 then 0 else now - rec.lastUpdateTime
  }

  /** Rust's `/` on `u64`: the quotient rounded down. */
  function FloorDiv(x: nat, d: Positive): (q: nat)
    ensures q * d <= x < q * d + d
  {
    assert x == (x / d) * d + x % d;
    x / d
  }

  /** Simple interest on `amount` over `elapsed` seconds, rounded down: the
      largest `i` with `i * 100 * SECOND_PER_YEAR <= amount * STAKING_APR * elapsed`. */
  function Interest(amount: nat, elapsed: nat, rates: Rates): (i: nat)
    ensures i * (100 * rates.secondPerYear) <= amount * rates.stakingApr * elapsed
    ensures amount * rates.stakingApr * elapsed < i * (100 * rates.secondPerYear) + 100 * rates.secondPerYear
  {
    FloorDiv(amount * rates.stakingApr * elapsed, 100 * rates.secondPerYear)
  }

  /** The `u64` arithmetic of the accrual neither wraps nor underflows: the
      clock has not gone back past the last update, and the product
      `amount * STAKING_APR * pass_time`, the divisor and the new amount fit. */
  predicate AccrualInRange(rec: StakeRecord, now: U64, rates: Rates)
  {
    && (rec.lastUpdateTime == 0 || rec.lastUpdateTime <= now)
    && 100 * rates.secondPerYear <= U64_MAX
    && rec.amount * rates.stakingApr <= U64_MAX
    && rec.amount * rates.stakingApr * Elapsed(rec, now) <= U64_MAX
    && rec.amount + Interest(rec.amount, Elapsed(rec, now), rates) <= U64_MAX
  }

  /** The record after the accrual that opens every call. */
  function Accrue(rec: StakeRecord, now: U64, rates: Rates): (r: StakeRecord)
    requires AccrualInRange(rec, now, rates)
    ensures r.lastUpdateTime == now
    ensures rec.amount <= r.amount
    ensures rec.lastUpdateTime == 0 || rec.lastUpdateTime == now || rec.amount == 0 ==> r.amount == rec.amount
  {
    StakeRecord(rec.amount + Interest(rec.amount, Elapsed(rec, now), rates), now)
  }

  /** Accrual and, for a stake, the final `amount += amount`, fit in `u64`. */
  predicate InRange(rec: StakeRecord, amount: U64, isStake: bool, now: U64, rates: Rates)
  {
    && AccrualInRange(rec, now, rates)
    && (isStake && amount > 0 ==> Accrue(rec, now, rates).amount + amount <= U64_MAX)
  }

  /** The effect of one `stake_token` call on the caller's record and on the
      token accounts, or the error it returns. */
  function Step(rec: StakeRecord, accounts: Accounts, keys: StakeKeys, amount: U64, isStake: bool, now: U64, rates: Rates)
    : (r: Result<(StakeRecord, Accounts)>)
    requires keys.userAta in accounts && keys.stakingVault in accounts
    requires InRange(rec, amount, isStake, now, rates)
    ensures r.Ok? ==> r.value.0.lastUpdateTime == now && r.value.1.Keys == accounts.Keys
    ensures amount == 0 ==> r == Ok((Accrue(rec, now, rates), accounts))
    ensures r == Err(Staking(StakingAppError.InsufficientFunds)) <==>
              !isStake && 0 < amount && Accrue(rec, now, rates).amount < amount
    ensures r.Ok? && isStake ==> r.value.0.amount == Accrue(rec, now, rates).amount + amount
    ensures r.Ok? && !isStake ==> r.value.0.amount + amount == Accrue(rec, now, rates).amount
    ensures 0 < amount && isStake ==>
              (r.Ok? <==> TransferStep(accounts, keys.userAta, keys.stakingVault, keys.user, amount).Ok?)
    ensures 0 < amount && isStake && r.Ok? ==>
              r.value.1 == TransferStep(accounts, keys.userAta, keys.stakingVault, keys.user, amount).value
    ensures 0 < amount && !isStake ==>
              (r.Ok? <==> amount <= Accrue(rec, now, rates).amount
                          && TransferStep(accounts, keys.stakingVault, keys.userAta, keys.vaultAuthority, amount).Ok?)
    ensures 0 < amount && !isStake && r.Ok? ==>
              r.value.1 == TransferStep(accounts, keys.stakingVault, keys.userAta, keys.vaultAuthority, amount).value
    ensures 0 < amount && isStake && TransferStep(accounts, keys.userAta, keys.stakingVault, keys.user, amount).Err? ==>
              r == Err(TransferStep(accounts, keys.userAta, keys.stakingVault, keys.user, amount).error)
    ensures 0 < amount && !isStake && amount <= Accrue(rec, now, rates).amount
              && TransferStep(accounts, keys.stakingVault, keys.userAta, keys.vaultAuthority, amount).Err? ==>
              r == Err(TransferStep(accounts, keys.stakingVault, keys.userAta, keys.vaultAuthority, amount).error)
  {
    var accrued := Accrue(rec, now, rates);
    if amount == 0 then
      Ok((accrued, accounts))
    else if isStake then
      match TransferStep(accounts, keys.userAta, keys.stakingVault, keys.user, amount)
      case Err(e) => Err(e)
      case Ok(after) => Ok((accrued.(amount := accrued.amount + amount), after))
    else if accrued.amount < amount then
      Err(Staking(StakingAppError.InsufficientFunds))
    else
      match TransferStep(accounts, keys.stakingVault, keys.userAta, keys.vaultAuthority, amount)
      case Err(e) => Err(e)
      case Ok(after) => Ok((accrued.(amount := accrued.amount - amount), after))
  }

  /** `StakeToken::process`. The instruction writes the accrued amount and
      the timestamp before it transfers; when it then fails, the runtime
      discards those writes, which the method does by restoring the record
      read on entry. */
  method Process(userInfo: UserTokenInfo, token: TokenProgram, keys: StakeKeys, amount: U64, isStake: bool, now: U64, rates: Rates)
    returns (r: Result<()>)
    requires keys.userAta in token.accounts && keys.stakingVault in token.accounts
    requires InRange(userInfo.Record(), amount, isStake, now, rates)
    modifies userInfo, token
    ensures match Step(old(userInfo.Record()), old(token.accounts), keys, amount, isStake, now, rates)
            case Ok(v) => r == Ok(()) && userInfo.Record() == v.0 && token.accounts == v.1
            case Err(e) => r == Err(e) && userInfo.Record() == old(userInfo.Record()) && token.accounts == old(token.accounts)
  {
    var saved := userInfo.Record();
    var passTime := if userInfo.lastUpdateTime == 0 then 0 else now - userInfo.lastUpdateTime;
    userInfo.amount := userInfo.amount + userInfo.amount * rates.stakingApr * passTime / (100 * rates.secondPerYear);
    userInfo.lastUpdateTime := now;

    if amount > 0 {
      if isStake {
        var t := token.Transfer(keys.userAta, keys.stakingVault, keys.user, amount);
        if t.Err? {
          userInfo.amount, userInfo.lastUpdateTime := saved.amount, saved.lastUpdateTime;
          return Err(t.error);
        }
        userInfo.amount := userInfo.amount + amount;
      } else {
        if userInfo.amount < amount {
          userInfo.amount, userInfo.lastUpdateTime := saved.amount, saved.lastUpdateTime;
          return Err(Staking(StakingAppError.InsufficientFunds));
        }
        var t := token.Transfer(keys.stakingVault, keys.userAta, keys.vaultAuthority, amount);
        if t.Err? {
          userInfo.amount, userInfo.lastUpdateTime := saved.amount, saved.lastUpdateTime;
          return Err(t.error);
        }
        userInfo.amount := userInfo.amount - amount;
      }
    }
    r := Ok(());
  }

  // ---------------------------------------------------------------------------
  // Properties of the accrual

  /** Interest never decreases as more time passes. */
  lemma InterestMonotoneInTime(amount: nat, e1: nat, e2: nat, rates: Rates)
    requires e1 <= e2
    ensures Interest(amount, e1, rates) <= Interest(amount, e2, rates)
  {
    var d := 100 * rates.secondPerYear;
    var x1, x2 := amount * rates.stakingApr * e1, amount * rates.stakingApr * e2;
    MulMonotone(amount * rates.stakingApr, e1, e2);
    DivMonotone(x1, x2, d);
  }

  /** Interest never decreases as the staked amount grows. */
  lemma InterestMonotoneInAmount(a1: nat, a2: nat, elapsed: nat, rates: Rates)
    requires a1 <= a2
    ensures Interest(a1, elapsed, rates) <= Interest(a2, elapsed, rates)
  {
    var d := 100 * rates.secondPerYear;
    MulMonotone(rates.stakingApr, a1, a2);
    MulMonotone(rates.stakingApr * elapsed, a1, a2);
    assert a1 * rates.stakingApr * elapsed == (rates.stakingApr * elapsed) * a1;
    assert a2 * rates.stakingApr * elapsed == (rates.stakingApr * elapsed) * a2;
    DivMonotone(a1 * rates.stakingApr * elapsed, a2 * rates.stakingApr * elapsed, d);
  }

  lemma MulMonotone(c: nat, x: nat, y: nat)
    requires x <= y
    ensures c * x <= c * y
  {
    assert c * y == c * x + c * (y - x);
  }

  lemma DivMonotone(x: nat, y: nat, d: Positive)
    requires x <= y
    ensures FloorDiv(x, d) <= FloorDiv(y, d)
  {
    var qx, qy := FloorDiv(x, d), FloorDiv(y, d);
    if qx > qy {
      MulMonotone(d, qy + 1, qx);
    }
  }

  /** The accrual at a later time yields at least as much as at an earlier one. */
  lemma AccrueMonotoneInTime(rec: StakeRecord, t1: U64, t2: U64, rates: Rates)
    requires t1 <= t2
    requires AccrualInRange(rec, t1, rates) && AccrualInRange(rec, t2, rates)
    ensures Accrue(rec, t1, rates).amount <= Accrue(rec, t2, rates).amount
  {
    InterestMonotoneInTime(rec.amount, Elapsed(rec, t1), Elapsed(rec, t2), rates);
  }

  /** A record already stamped with the current time accrues nothing. */
  lemma AccrueAtStamp(rec: StakeRecord, now: U64, rates: Rates)
    requires rec.lastUpdateTime == now
    requires 100 * rates.secondPerYear <= U64_MAX && rec.amount * rates.stakingApr <= U64_MAX
    ensures AccrualInRange(rec, now, rates) && Accrue(rec, now, rates) == rec
  {
    assert Elapsed(rec, now) == 0;
    assert rec.amount * rates.stakingApr * 0 == 0;
  }

  /** A second accrual at the same instant changes nothing. */
  lemma AccrueIdempotent(rec: StakeRecord, now: U64, rates: Rates)
    requires AccrualInRange(rec, now, rates)
    requires Accrue(rec, now, rates).amount * rates.stakingApr <= U64_MAX
    ensures AccrualInRange(Accrue(rec, now, rates), now, rates)
    ensures Accrue(Accrue(rec, now, rates), now, rates) == Accrue(rec, now, rates)
  {
    AccrueAtStamp(Accrue(rec, now, rates), now, rates);
  }

  /** One year at 10 percent on 1000 tokens earns exactly 100. */
  lemma OneYearAtTenPercent(start: U64)
    requires 0 < start && start + 31_536_000 <= U64_MAX
    ensures Accrue(StakeRecord(1000, start), start + 31_536_000, Rates(10, 31_536_000)).amount == 1100
  {
  }

  // ---------------------------------------------------------------------------
  // Properties of a whole call

  /** A successful stake moves exactly `amount` from the user's token account
      into the staking vault and credits it to the record. */
  lemma StakeMovesTokens(rec: StakeRecord, accounts: Accounts, keys: StakeKeys, amount: U64, now: U64, rates: Rates)
    requires keys.userAta in accounts && keys.stakingVault in accounts && keys.userAta != keys.stakingVault
    requires InRange(rec, amount, true, now, rates)
    requires Step(rec, accounts, keys, amount, true, now, rates).Ok?
    ensures var (rec', accounts') := Step(rec, accounts, keys, amount, true, now, rates).value;
            && accounts'[keys.userAta].amount == accounts[keys.userAta].amount - amount
            && accounts'[keys.stakingVault].amount == accounts[keys.stakingVault].amount + amount
            && rec'.amount == Accrue(rec, now, rates).amount + amount
            && Supply(accounts') == Supply(accounts)
  {
    if amount > 0 {
      TransferPreservesSupply(accounts, keys.userAta, keys.stakingVault, keys.user, amount);
    }
  }

  /** A successful unstake moves exactly `amount` from the staking vault to the
      user's token account and debits it from the accrued record. */
  lemma UnstakeMovesTokens(rec: StakeRecord, accounts: Accounts, keys: StakeKeys, amount: U64, now: U64, rates: Rates)
    requires keys.userAta in accounts && keys.stakingVault in accounts && keys.userAta != keys.stakingVault
    requires InRange(rec, amount, false, now, rates)
    requires Step(rec, accounts, keys, amount, false, now, rates).Ok?
    ensures var (rec', accounts') := Step(rec, accounts, keys, amount, false, now, rates).value;
            && accounts'[keys.stakingVault].amount == accounts[keys.stakingVault].amount - amount
            && accounts'[keys.userAta].amount == accounts[keys.userAta].amount + amount
            && amount <= Accrue(rec, now, rates).amount
            && rec'.amount == Accrue(rec, now, rates).amount - amount
            && Supply(accounts') == Supply(accounts)
  {
    if amount > 0 {
      TransferPreservesSupply(accounts, keys.stakingVault, keys.userAta, keys.vaultAuthority, amount);
    }
  }

  /** A user who owns a token account holding `amount` can stake it, and
      unstaking the same amount at the same instant then succeeds, restores
      every token account and leaves the record at its accrued value. */
  lemma StakeThenUnstake(rec: StakeRecord, accounts: Accounts, keys: StakeKeys, amount: U64, now: U64, rates: Rates)
    requires keys.userAta in accounts && keys.stakingVault in accounts && keys.userAta != keys.stakingVault
    requires accounts[keys.userAta].owner == keys.user && amount <= accounts[keys.userAta].amount
    requires accounts[keys.stakingVault].owner == keys.vaultAuthority
    requires accounts[keys.stakingVault].amount + amount <= U64_MAX
    requires InRange(rec, amount, true, now, rates)
    requires (Accrue(rec, now, rates).amount + amount) * rates.stakingApr <= U64_MAX
    ensures Step(rec, accounts, keys, amount, true, now, rates).Ok?
    ensures var (rec1, accounts1) := Step(rec, accounts, keys, amount, true, now, rates).value;
            && InRange(rec1, amount, false, now, rates)
            && Step(rec1, accounts1, keys, amount, false, now, rates) == Ok((Accrue(rec, now, rates), accounts))
  {
    var (rec1, accounts1) := Step(rec, accounts, keys, amount, true, now, rates).value;
    MulMonotone(rates.stakingApr, rec1.amount, Accrue(rec, now, rates).amount + amount);
    assert rec1.amount * rates.stakingApr == rates.stakingApr * rec1.amount;
    AccrueAtStamp(rec1, now, rates);
    if amount > 0 {
      TransferRoundTrip(accounts, keys.userAta, keys.stakingVault, keys.user, amount);
    }
  }
}
