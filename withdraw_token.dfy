/** The bank program's `withdraw_token` instruction: a depositor takes tokens
    back from the bank's vault, debiting their reserve. */
module WithdrawToken {
  import opened Common
  import opened Token
  import opened BankState

  /** The addresses passed to the instruction: the bank vault (the derived
      authority of the bank's token account), the bank's token account and
      the user's token account. */
  datatype WithdrawKeys = WithdrawKeys(bankVault: Pubkey, bankAta: Pubkey, userAta: Pubkey)

  /** The new `deposited_amount` and token accounts after `withdraw_token`,
      or its error: the pause gate, then the reserve check, then the
      transfer signed by the bank vault, and only then the debit. */
  function Step(config: BankConfig, deposited: U64, accounts: Accounts, keys: WithdrawKeys, withdrawAmount: U64)
    : (r: Result<(U64, Accounts)>)
    requires keys.bankAta in accounts && keys.userAta in accounts
    ensures config.isPaused ==> r == Err(Bank(BankAppPaused))
    ensures !config.isPaused && deposited < withdrawAmount ==> r == Err(Bank(BankAppError.InsufficientFunds))
    ensures r.Ok? <==>
              && !config.isPaused
              && withdrawAmount <= deposited
              && TransferStep(accounts, keys.bankAta, keys.userAta, keys.bankVault, withdrawAmount).Ok?
    ensures r.Ok? ==> r.value.0 + withdrawAmount == deposited
    ensures r.Ok? ==> r.value.1 == TransferStep(accounts, keys.bankAta, keys.userAta, keys.bankVault, withdrawAmount).value
    ensures !config.isPaused && withdrawAmount <= deposited
              && TransferStep(accounts, keys.bankAta, keys.userAta, keys.bankVault, withdrawAmount).Err? ==>
              r == Err(TransferStep(accounts, keys.bankAta, keys.userAta, keys.bankVault, withdrawAmount).error)
  {
    if config.isPaused then Err(Bank(BankAppPaused))
    else if deposited < withdrawAmount then Err(Bank(BankAppError.InsufficientFunds))
    else
      match TransferStep(accounts, keys.bankAta, keys.userAta, keys.bankVault, withdrawAmount)
      case Err(e) => Err(e)
      case Ok(after) => Ok((deposited - withdrawAmount, after))
  }

  /** `WithdrawToken::process`. `bank_info` is not a writable account, so
      only the reserve and the token accounts may change. */
  method Process(bankInfo: BankInfo, userReserve: UserReserve, token: TokenProgram, keys: WithdrawKeys, withdrawAmount: U64)
    returns (r: Result<()>)
    requires keys.bankAta in token.accounts && keys.userAta in token.accounts
    modifies userReserve, token
    ensures match Step(bankInfo.Config(), old(userReserve.depositedAmount), old(token.accounts), keys, withdrawAmount)
            case Ok(v) => r == Ok(()) && userReserve.depositedAmount == v.0 && token.accounts == v.1
            case Err(e) => r == Err(e) && userReserve.depositedAmount == old(userReserve.depositedAmount)
                           && token.accounts == old(token.accounts)
  {
    if bankInfo.isPaused {
      return Err(Bank(BankAppPaused));
    }
    if userReserve.depositedAmount < withdrawAmount {
      return Err(Bank(BankAppError.InsufficientFunds));
    }
    var t := token.Transfer(keys.bankAta, keys.userAta, keys.bankVault, withdrawAmount);
    if t.Err? {
      return Err(t.error);
    }
    userReserve.depositedAmount := userReserve.depositedAmount - withdrawAmount;
    r := Ok(());
  }

  /** A successful withdrawal debits the reserve by exactly what leaves the
      bank's token account, credits the user's token account with it, and
      keeps the total number of tokens. */
  lemma WithdrawMovesTokens(config: BankConfig, deposited: U64, accounts: Accounts, keys: WithdrawKeys, withdrawAmount: U64)
    requires keys.bankAta in accounts && keys.userAta in accounts && keys.bankAta != keys.userAta
    requires Step(config, deposited, accounts, keys, withdrawAmount).Ok?
    ensures var (deposited', accounts') := Step(config, deposited, accounts, keys, withdrawAmount).value;
            && deposited - deposited' == accounts[keys.bankAta].amount - accounts'[keys.bankAta].amount == withdrawAmount
            && accounts'[keys.userAta].amount == accounts[keys.userAta].amount + withdrawAmount
            && Supply(accounts') == Supply(accounts)
  {
    TransferPreservesSupply(accounts, keys.bankAta, keys.userAta, keys.bankVault, withdrawAmount);
  }

  /** A run of withdrawals, each starting from the state the previous one left. */
  function WithdrawAll(config: BankConfig, deposited: U64, accounts: Accounts, keys: WithdrawKeys, amounts: seq<U64>)
    : (r: Result<(U64, Accounts)>)
    requires keys.bankAta in accounts && keys.userAta in accounts
    ensures r.Ok? ==> keys.bankAta in r.value.1 && keys.userAta in r.value.1
    decreases |amounts|
  {
    if amounts == [] then Ok((deposited, accounts))
    else
      match Step(config, deposited, accounts, keys, amounts[0])
      case Err(e) => Err(e)
      case Ok(next) => WithdrawAll(config, next.0, next.1, keys, amounts[1..])
  }

  function Sum(amounts: seq<U64>): nat
  {
    if amounts == [] then 0 else amounts[0] + Sum(amounts[1..])
  }

  /** After any run of successful withdrawals the reserve is the starting
      reserve minus everything withdrawn, the bank's token account has paid
      out exactly that much, and no tokens were created or destroyed. */
  lemma {:induction false} WithdrawAllAccounts(config: BankConfig, deposited: U64, accounts: Accounts, keys: WithdrawKeys, amounts: seq<U64>)
    requires keys.bankAta in accounts && keys.userAta in accounts && keys.bankAta != keys.userAta
    requires WithdrawAll(config, deposited, accounts, keys, amounts).Ok?
    ensures var (deposited', accounts') := WithdrawAll(config, deposited, accounts, keys, amounts).value;
            && deposited' + Sum(amounts) == deposited
            && accounts'[keys.bankAta].amount + Sum(amounts) == accounts[keys.bankAta].amount
            && Supply(accounts') == Supply(accounts)
    decreases |amounts|
  {
    if amounts != [] {
      var next := Step(config, deposited, accounts, keys, amounts[0]).value;
      WithdrawMovesTokens(config, deposited, accounts, keys, amounts[0]);
      WithdrawAllAccounts(config, next.0, next.1, keys, amounts[1..]);
    }
  }
}
