/** The bank program's `pause` instruction: the bank's authority sets or
    clears the pause flag. */
module Pause {
  import opened Common
  import opened BankState

  /** The configuration after `pause(pause)` signed by `signer`. The account
      constraint `bank_info.authority == authority.key()` is checked before the
      instruction body runs, and the flag itself gates nothing here. */
  function Step(config: BankConfig, signer: Pubkey, pause: bool): (r: Result<BankConfig>)
    ensures r.Ok? <==> signer == config.authority
    ensures r.Err? ==> r.error == ConstraintRaw
    ensures r.Ok? ==> r.value.isPaused == pause && r.value.authority == config.authority
  {
    if config.authority != signer then Err(ConstraintRaw)
    else Ok(config.(isPaused := pause))
  }

  /** `Pause::process` together with its account constraint. */
  method Process(bankInfo: BankInfo, signer: Pubkey, pause: bool) returns (r: Result<()>)
    modifies bankInfo
    ensures match Step(old(bankInfo.Config()), signer, pause)
            case Ok(c) => r == Ok(()) && bankInfo.Config() == c
            case Err(e) => r == Err(e) && bankInfo.Config() == old(bankInfo.Config())
  {
    if bankInfo.authority != signer {
      return Err(ConstraintRaw);
    }
    bankInfo.isPaused := pause;
    r := Ok(());
  }

  /** Pausing twice with the same flag is the same as pausing once. */
  lemma PauseIdempotent(config: BankConfig, signer: Pubkey, pause: bool)
    requires Step(config, signer, pause).Ok?
    ensures Step(Step(config, signer, pause).value, signer, pause) == Step(config, signer, pause)
  {
  }

  /** Pause is not gated by the flag: the authority can always resume a
      paused bank, and then it is exactly as it was before the pause. */
  lemma AuthorityCanResume(config: BankConfig)
    ensures Step(config.(isPaused := true), config.authority, false) == Ok(config.(isPaused := false))
    ensures !config.isPaused ==>
              Step(Step(config, config.authority, true).value, config.authority, false) == Ok(config)
  {
  }
}
