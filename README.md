# Bank and staking ledgers, modelled in Dafny

This project models two cooperating Solana programs written with Anchor.

- The **staking program** keeps one `UserTokenInfo { amount, last_update_time }` record per staker and mint. Every `stake_token` call first accrues simple interest on `amount` with integer floor division: `amount * STAKING_APR * elapsed / (100 * SECOND_PER_YEAR)`. It then stamps the record with the current time. Last, it either stakes (tokens move from the user's token account into the staking vault, then `amount` grows) or unstakes (the accrued amount is checked, tokens move back out of the vault under the vault's derived authority, then `amount` shrinks).
- The **bank program** keeps a `BankInfo { authority, is_paused }` account and one `UserReserve { deposited_amount }` per depositor. Three instructions are modelled:
  - `withdraw_token`: pause gate, reserve check, transfer out of the bank's token account, then the debit.
  - `invest_token`: authority gate (`has_one`), pause gate, bank vault balance check, then a cross-program `stake_token` call in which the bank vault authority is the user and the bank's token account is the user's token account.
  - `pause`: the authority sets the flag.

## Layout

Each modelled instruction has:

- a pure `Step` function: the instruction's effect on plain values, or its error;
- a `Process` method on the accounts the instruction writes in place. The accounts are classes (`UserTokenInfo`, `BankInfo`, `UserReserve`, and `TokenProgram` for the token accounts). Each method's `ensures` ties the new state to `Step`, and an error leaves every account as it was;
- lemmas about `Step`.

Modules and files:

- `common.dfy` (`Common`): the `u64` type, addresses, both programs' error enums, the SPL token errors, the Anchor constraint errors and `Result`.
- `token.dfy` (`Token`): the token accounts as a map from address to `(owner, amount)`. `TransferStep` is the one atomic transfer: it moves the whole amount or fails and changes nothing. `Supply` is the total number of tokens.
- `stake_token.dfy` (`StakeToken`): the accrual (`Interest`, `Accrue`), `Step`, `Process` and the staking lemmas.
- `bank_state.dfy` (`BankState`): `BankInfo` and `UserReserve`.
- `withdraw_token.dfy`, `invest_token.dfy` and `pause.dfy`: one module per bank instruction.
- `bank_app.dfy` (`BankApp`): the pause property that spans instructions.

The constants `STAKING_APR` and `SECOND_PER_YEAR` live in a `constant` module that is not part of this model. They are a parameter `Rates(stakingApr, secondPerYear)` of positive integers. The clock is a parameter `now`. Addresses, including program derived addresses, are opaque numbers.

## Behaviour worth noting

- A failing unstake does not keep its accrual. The instruction writes the accrued amount and the new timestamp before its checks. But it returns `Err`, and the runtime discards every account write of a failed instruction. `StakeToken.Process` therefore restores the record it read on entry.
- `invest_token` checks `bank_vault.amount < amount` for both directions, not only for a stake. This is `InvestToken.VaultCheckIgnoresDirection`.
- Every error here is one the programs return, under its own name:
  - `BankAppPaused` and `InsufficientFunds` from the bank program;
  - `InsufficientFunds` from the staking program;
  - the token program's `InsufficientFunds`, `OwnerMismatch` and `Overflow`;
  - Anchor's `ConstraintHasOne` (the `has_one` constraint of `invest_token`) and `ConstraintRaw` (the `constraint =` of `pause`).

  There is no separate "authorization failed", "transfer failed" or "invalid timestamp" error.
- The clock going back before `last_update_time` has no error of its own. It is a `u64` underflow at `stake_token.rs:74`, so here it is a precondition.

## Model

| member | source | states |
|---|---|---|
| `Token.TransferStep` | programs/staking-app/src/transfer_helper.rs:51-91 | a transfer succeeds exactly when the source holds `amount`, the authority owns the source and the destination stays within `u64`; on success the source loses and the destination gains exactly `amount`, no other account and no owner changes, and a self-transfer changes nothing; every failure is a token error |
| `Token.TransferPreservesSupply` | programs/staking-app/src/transfer_helper.rs:71-91 | a successful transfer leaves the total number of tokens over all accounts unchanged |
| `Token.TransferRoundTrip` | programs/staking-app/src/transfer_helper.rs:51-91 | transferring the same amount back, signed by the destination's owner, succeeds and restores every account |
| `Token.TokenProgram.Transfer` | programs/staking-app/src/transfer_helper.rs:71-91 | the cross-program transfer updates the token accounts to the result of `TransferStep`, or leaves them unchanged and returns its error |
| `StakeToken.Interest` | programs/staking-app/src/instructions/stake_token.rs:77 | the interest is the floor of `amount * STAKING_APR * elapsed / (100 * SECOND_PER_YEAR)`: the largest `i` with `i * 100 * SECOND_PER_YEAR <= amount * STAKING_APR * elapsed` |
| `StakeToken.Accrue` | programs/staking-app/src/instructions/stake_token.rs:70-78 | accrual (with `Elapsed`, the seconds since the last update, zero for a record never updated) stamps the record with the current time and never lowers `amount`; on the first call (`last_update_time == 0`), at the same instant, or on a zero amount it adds nothing |
| `StakeToken.Step` | programs/staking-app/src/instructions/stake_token.rs:66-113 | every success stamps `now` and keeps the set of token accounts; a zero amount only accrues; the call fails with `InsufficientFunds` exactly when it is an unstake larger than the accrued amount; a successful stake leaves accrued + `amount` and a successful unstake accrued − `amount`; a failed transfer's token error is returned unchanged; a nonzero stake succeeds exactly when the user-signed transfer from the user's token account to the vault succeeds, a nonzero unstake exactly when `amount` is within the accrued balance and the vault-authority-signed transfer back succeeds, and the token accounts afterwards are that transfer's result, so no other account changes |
| `StakeToken.Process` | programs/staking-app/src/instructions/stake_token.rs:66-113 | the instruction run in place on `UserTokenInfo` and the token accounts ends in the state `Step` gives, or, on an error, with the record and every token account as they were |
| `StakeToken.InterestMonotoneInTime` | programs/staking-app/src/instructions/stake_token.rs:77 | for a fixed amount, more elapsed time never yields less interest |
| `StakeToken.InterestMonotoneInAmount` | programs/staking-app/src/instructions/stake_token.rs:77 | for a fixed elapsed time, a larger amount never yields less interest |
| `StakeToken.AccrueMonotoneInTime` | programs/staking-app/src/instructions/stake_token.rs:71-77 | accruing the same record at a later time never gives a smaller amount |
| `StakeToken.AccrueAtStamp` | programs/staking-app/src/instructions/stake_token.rs:71-78 | a record already stamped with the current time accrues nothing, and its accrual stays within `u64` whenever `amount * STAKING_APR` and the divisor `100 * SECOND_PER_YEAR` do |
| `StakeToken.AccrueIdempotent` | programs/staking-app/src/instructions/stake_token.rs:71-78 | a second accrual at the same instant changes nothing |
| `StakeToken.OneYearAtTenPercent` | programs/staking-app/src/instructions/stake_token.rs:77 | 1000 tokens at 10 percent for one year (31 536 000 seconds) become 1100 |
| `StakeToken.StakeMovesTokens` | programs/staking-app/src/instructions/stake_token.rs:80-89 | a successful stake moves exactly `amount` from the user's token account to the staking vault, credits the accrued record with it, and conserves the token supply |
| `StakeToken.UnstakeMovesTokens` | programs/staking-app/src/instructions/stake_token.rs:90-109 | a successful unstake had `amount` within the accrued balance, moves exactly `amount` from the vault to the user's token account, debits it from the record without underflow, and conserves the token supply |
| `StakeToken.StakeThenUnstake` | programs/staking-app/src/instructions/stake_token.rs:77-109 | a user owning a token account that holds `amount` can stake it; unstaking the same amount at the same instant then succeeds, restores every token account and leaves the record at its accrued value |
| `Pause.Step` | programs/bank-app/src/instructions/authority/pause.rs:10-23 | pause succeeds exactly when the signer is the stored authority, whatever the current flag; the new flag is the one supplied and the authority is unchanged; any other signer gets `ConstraintRaw` |
| `Pause.Process` | programs/bank-app/src/instructions/authority/pause.rs:21-30 | the instruction run in place on `BankInfo` ends in the configuration `Step` gives, or unchanged on an error |
| `Pause.PauseIdempotent` | programs/bank-app/src/instructions/authority/pause.rs:23 | pausing twice with the same flag gives the same result as pausing once |
| `Pause.AuthorityCanResume` | programs/bank-app/src/instructions/authority/pause.rs:22-30 | the authority can always clear the flag of a paused bank, and pausing then resuming gives back the original configuration |
| `WithdrawToken.Step` | programs/bank-app/src/instructions/user/withdraw_token.rs:54-80 | a paused bank fails with `BankAppPaused` before any other check; otherwise a reserve below the request fails with `InsufficientFunds`; the call succeeds exactly when both guards pass and the vault-signed transfer succeeds, and then the reserve drops by exactly the request and the token accounts are the transfer's result; when the guards pass but the transfer fails, its token error is returned unchanged |
| `WithdrawToken.Process` | programs/bank-app/src/instructions/user/withdraw_token.rs:53-80 | the instruction run in place changes only the reserve and the token accounts (never `BankInfo`), to what `Step` gives, and changes nothing on an error |
| `WithdrawToken.WithdrawMovesTokens` | programs/bank-app/src/instructions/user/withdraw_token.rs:68-77 | on success the reserve and the bank's token account both drop by exactly the request, the user's token account gains it, and the token supply is conserved |
| `WithdrawToken.WithdrawAllAccounts` | programs/bank-app/src/instructions/user/withdraw_token.rs:54-80 | after any run of successful withdrawals the reserve equals the starting reserve minus the sum withdrawn, the bank's token account paid out exactly that sum, and the supply is unchanged |
| `InvestToken.Step` | programs/bank-app/src/instructions/authority/invest_token.rs:14-86 | a signer other than the stored authority fails with `ConstraintHasOne`; the authority on a paused bank fails with `BankAppPaused`; success requires the authority, an unpaused bank and a bank vault holding at least `amount`; the staking call's accounts are those of `StakeKeysOf` (the bank vault authority as user, the bank's token account as the user's); the staking call's `u64` precondition is required only on the path that reaches it |
| `InvestToken.Process` | programs/bank-app/src/instructions/authority/invest_token.rs:51-93 | the instruction run in place changes only the bank's staking record and the token accounts (never `BankInfo`), to what `Step` gives, and changes nothing on an error |
| `InvestToken.VaultCheckIgnoresDirection` | programs/bank-app/src/instructions/authority/invest_token.rs:56-58 | with the authority signing and the bank unpaused, a bank vault balance below `amount` fails with `InsufficientFunds` for a stake and an unstake alike |
| `InvestToken.InvestIsStakeByBank` | programs/bank-app/src/instructions/authority/invest_token.rs:65-86 | past its guards, an investment equals `stake_token` with the bank vault authority as user, the bank's token account as the user's, and the same amount and direction; staking errors propagate unchanged |
| `InvestToken.InvestStakeMovesVaultTokens` | programs/bank-app/src/instructions/authority/invest_token.rs:65-86 | a successful stake investment moves exactly `amount` from the bank's token account to the staking vault, credits the bank's accrued record, and conserves the supply |
| `BankApp.PausedBankMovesNothing` | programs/bank-app/src/instructions/user/withdraw_token.rs:55-57 | on a paused bank both withdraw (this gate) and the authority's invest (the gate at `invest_token.rs:53-55`) fail with `BankAppPaused` for every record and clock, while pause signed by the authority (`pause.rs:14` and `pause.rs:23`) still succeeds and lifts the flag |

## Left out

- `StakeToken.Step`: the `u64` arithmetic of the instruction is a precondition (`InRange`), not modelled as wrapping or as a panic. This covers the product `amount * STAKING_APR * pass_time`, the new amount, the stake's `amount += amount`, and the subtraction `current_time - last_update_time`. Overflow behaviour depends on build settings that are not part of this model.
- `StakeToken.Process`: same `u64` precondition as `StakeToken.Step`.
- `InvestToken.Step` and `InvestToken.Process`: on the path that reaches the staking call (authority signing, bank unpaused, vault holding `amount`) they carry that call's `u64` precondition; the three guard rejections hold for every record and clock.
- Program derived addresses, bumps and signer seeds are host hashing. Every derived authority is an opaque address, and a derived signature is taken to match the address it was derived for.
- `Clock::get()` and the conversion of its `i64` timestamp are left out. The current time is the parameter `now`.
- `msg!` logging is output only.
- Account creation is left out: `init_if_needed`, payer, space, rent, and the associated-token and seed constraints. The accounts an instruction names are taken to exist. A freshly created `UserTokenInfo` is the record `(0, 0)`.
- The token program is reduced to the checks a plain transfer makes: source balance, owner, self-transfer and destination overflow. Frozen accounts, delegates and mint mismatches are not modelled.
- The SOL transfer helpers in `transfer_helper.rs` are not modelled. They serve instructions outside this model.
- `initialize`, `deposit`, `deposit_token`, `withdraw`, `invest` and `stake_sol` are not part of this model. `state.rs` and `constant.rs` are not part of this model either, so `BankInfo` carries only the two fields the modelled instructions read.
- The bank's `UserReserve` is not connected to the amount the bank has staked. No instruction in this model links the two.
