/** Vocabulary shared by the bank program and the staking program: Rust's
    unsigned 64-bit integers, account addresses, every error code an
    instruction can end with, and the Result an instruction returns. */
module Common {

  const U64_MAX: nat := 0xFFFF_FFFF_FFFF_FFFF

  /** Rust's `u64`: token amounts, stored balances and timestamps. */
  type U64 = n: nat | n <= U64_MAX

  /** An account address. Addresses derived from seeds (program derived
      addresses) are opaque values like any other. */
  type Pubkey = nat

  /** The SPL token program's errors that a `transfer` can return. */
  datatype TokenError = InsufficientFunds | OwnerMismatch | Overflow

  /** `StakingAppError` of the staking program. */
  datatype StakingAppError = InsufficientFunds

  /** `BankAppError` of the bank program. */
  datatype BankAppError = BankAppPaused | InsufficientFunds

  /** Every way an instruction of either program can fail. */
  datatype Error =
    | Token(tokenError: TokenError)
    | Staking(stakingError: StakingAppError)
    | Bank(bankError: BankAppError)
      /** Anchor's `has_one` account constraint did not hold. */
    | ConstraintHasOne
      /** Anchor's `constraint = ...` account constraint did not hold. */
    | ConstraintRaw

  /** Anchor's `Result<T>`. A failed instruction has all its account writes
      discarded by the runtime. */
  datatype Result<T> = Ok(value: T) | Err(error: Error)
}
