/** Properties that span the bank program's instructions. */
module BankApp {
  import opened Common
  import opened Token
  import opened BankState
  import StakeToken
  import Pause
  import WithdrawToken
  import InvestToken

  /** While the bank is paused, withdrawals and the authority's investments
      fail with `BankAppPaused` before any balance is looked at, and nothing
      changes; the authority can still lift the pause. */
  lemma PausedBankMovesNothing(config: BankConfig, deposited: U64, accounts: Accounts,
                               wkeys: WithdrawToken.WithdrawKeys, withdrawAmount: U64,
                               rec: StakeToken.StakeRecord, ikeys: InvestToken.InvestKeys,
                               amount: U64, isStake: bool, now: U64, rates: StakeToken.Rates)
    requires config.isPaused
    requires wkeys.bankAta in accounts && wkeys.userAta in accounts
    requires ikeys.bankVault in accounts && ikeys.stakingVault in accounts
    ensures WithdrawToken.Step(config, deposited, accounts, wkeys, withdrawAmount) == Err(Bank(BankAppPaused))
    ensures InvestToken.Step(config, config.authority, rec, accounts, ikeys, amount, isStake, now, rates) == Err(Bank(BankAppPaused))
    ensures Pause.Step(config, config.authority, false) == Ok(config.(isPaused := false))
  {
  }
}
