/** The bank program's `invest_token` instruction: the bank's authority moves
    vault tokens into (or out of) the staking program, the bank's vault
    authority acting as the staking user. */
module InvestToken {
  import opened Common
  import opened Token
  import opened BankState
  import StakeToken

  /** The addresses passed to the instruction: the bank's token account, its
      derived authority, the staking vault and the staking vault's authority. */
  datatype InvestKeys = InvestKeys(bankVault: Pubkey, bankVaultAuthority: Pubkey, stakingVault: Pubkey, stakingVaultAuthority: Pubkey)

  /** The accounts of the cross-program `stake_token` call: the bank vault
      authority is the user and the bank's token account is the user's. */
  function StakeKeysOf(keys: InvestKeys): StakeToken.StakeKeys
  {
    StakeToken.StakeKeys(user := keys.bankVaultAuthority, userAta := keys.bankVault,
                         stakingVault := keys.stakingVault, vaultAuthority := keys.stakingVaultAuthority)
  }

  /** The bank's staking record and the token accounts after `invest_token`
      signed by `signer`, or its error. */
  function Step(config: BankConfig, signer: Pubkey, rec: StakeToken.StakeRecord, accounts: Accounts, keys: InvestKeys,
                amount: U64, isStake: bool, now: U64, rates: StakeToken.Rates)
    : (r: Result<(StakeToken.StakeRecord, Accounts)>)
    requires keys.bankVault in accounts && keys.stakingVault in accounts
    requires signer == config.authority && !config.isPaused && amount <= accounts[keys.bankVault].amount ==>
               StakeToken.InRange(rec, amount, isStake, now, rates)
    ensures signer != config.authority ==> r == Err(ConstraintHasOne)
    ensures signer == config.authority && config.isPaused ==> r == Err(Bank(BankAppPaused))
    ensures r.Ok? ==> signer == config.authority && !config.isPaused && amount <= accounts[keys.bankVault].amount
  {
    if signer != config.authority then Err(ConstraintHasOne)
    else if config.isPaused then Err(Bank(BankAppPaused))
    else if accounts[keys.bankVault].amount < amount then Err(Bank(BankAppError.InsufficientFunds))
    else StakeToken.Step(rec, accounts, StakeKeysOf(keys), amount, isStake, now, rates)
  }

  /** `InvestToken::process` together with its `has_one = authority`
      constraint. `bank_info` is not writable: only the bank's staking record
      and the token accounts may change. */
  method Process(bankInfo: BankInfo, signer: Pubkey, userInfo: StakeToken.UserTokenInfo, token: TokenProgram, keys: InvestKeys,
                 amount: U64, isStake: bool, now: U64, rates: StakeToken.Rates)
    returns (r: Result<()>)
    requires keys.bankVault in token.accounts && keys.stakingVault in token.accounts
    requires signer == bankInfo.authority && !bankInfo.isPaused && amount <= token.accounts[keys.bankVault].amount ==>
               StakeToken.InRange(userInfo.Record(), amount, isStake, now, rates)
    modifies userInfo, token
    ensures match Step(bankInfo.Config(), signer, old(userInfo.Record()), old(token.accounts), keys, amount, isStake, now, rates)
            case Ok(v) => r == Ok(()) && userInfo.Record() == v.0 && token.accounts == v.1
            case Err(e) => r == Err(e) && userInfo.Record() == old(userInfo.Record()) && token.accounts == old(token.accounts)
  {
    if bankInfo.authority != signer {
      return Err(ConstraintHasOne);
    }
    if bankInfo.isPaused {
      return Err(Bank(BankAppPaused));
    }
    if token.accounts[keys.bankVault].amount < amount {
      return Err(Bank(BankAppError.InsufficientFunds));
    }
    r := StakeToken.Process(userInfo, token, StakeKeysOf(keys), amount, isStake, now, rates);
  }

  /** The vault balance check ignores the direction: an unstake larger than
      the bank's token balance is refused too, whatever the bank has staked. */
  lemma VaultCheckIgnoresDirection(config: BankConfig, rec: StakeToken.StakeRecord, accounts: Accounts, keys: InvestKeys,
                                   amount: U64, isStake: bool, now: U64, rates: StakeToken.Rates)
    requires keys.bankVault in accounts && keys.stakingVault in accounts
    requires !config.isPaused && accounts[keys.bankVault].amount < amount
    ensures Step(config, config.authority, rec, accounts, keys, amount, isStake, now, rates)
            == Err(Bank(BankAppError.InsufficientFunds))
  {
  }

  /** Past its guards, an investment is exactly the staking instruction run
      by the bank vault authority on the bank's token account, errors included. */
  lemma InvestIsStakeByBank(config: BankConfig, rec: StakeToken.StakeRecord, accounts: Accounts, keys: InvestKeys,
                            amount: U64, isStake: bool, now: U64, rates: StakeToken.Rates)
    requires keys.bankVault in accounts && keys.stakingVault in accounts
    requires StakeToken.InRange(rec, amount, isStake, now, rates)
    requires !config.isPaused && amount <= accounts[keys.bankVault].amount
    ensures Step(config, config.authority, rec, accounts, keys, amount, isStake, now, rates)
            == StakeToken.Step(rec, accounts, StakeKeysOf(keys), amount, isStake, now, rates)
  {
  }

  /** A successful stake investment moves `amount` from the bank's token
      account to the staking vault and credits the bank's accrued record. */
  lemma InvestStakeMovesVaultTokens(config: BankConfig, rec: StakeToken.StakeRecord, accounts: Accounts, keys: InvestKeys,
                                    amount: U64, now: U64, rates: StakeToken.Rates)
    requires keys.bankVault in accounts && keys.stakingVault in accounts && keys.bankVault != keys.stakingVault
    requires StakeToken.InRange(rec, amount, true, now, rates)
    requires Step(config, config.authority, rec, accounts, keys, amount, true, now, rates).Ok?
    ensures var (rec', accounts') := Step(config, config.authority, rec, accounts, keys, amount, true, now, rates).value;
            && accounts'[keys.bankVault].amount == accounts[keys.bankVault].amount - amount
            && accounts'[keys.stakingVault].amount == accounts[keys.stakingVault].amount + amount
            && rec'.amount == StakeToken.Accrue(rec, now, rates).amount + amount
            && Supply(accounts') == Supply(accounts)
  {
    StakeToken.StakeMovesTokens(rec, accounts, StakeKeysOf(keys), amount, now, rates);
  }
}
