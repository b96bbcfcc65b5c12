/** The bank program's own accounts: the single `BankInfo` configuration
    and one `UserReserve` per depositor and mint. */
module BankState {
  import opened Common

  /** The contents of the `BankInfo` account. */
  datatype BankConfig = BankConfig(authority: Pubkey, isPaused: bool)

  /** The `BankInfo` account: the address allowed to pause and invest, and the pause flag. */
  class BankInfo {
    var authority: Pubkey
    var isPaused: bool

    function Config(): BankConfig
      reads this
    {
      BankConfig(authority, isPaused)
    }
  }

  /** The `UserReserve` account: what the bank owes one depositor in one mint. */
  class UserReserve {
    var depositedAmount: U64
  }
}
