/** The SPL token program as both programs use it: token accounts held in one
    map from address to account, and a single atomic `transfer` that either
    moves the whole amount or changes nothing. */
module Token {
  import opened Common

  /** An SPL token account: the address allowed to move its funds, and its balance. */
  datatype TokenAccount = TokenAccount(owner: Pubkey, amount: U64)

  type Accounts = map<Pubkey, TokenAccount>

  /** `token::transfer` of `amount` from `from` to `to`, authorised by
      `authority`. The checks come in the token program's order: the source
      balance, then its owner; a transfer to the same account moves nothing;
      a destination balance that would pass `u64` fails. */
  function TransferStep(accounts: Accounts, from: Pubkey, to: Pubkey, authority: Pubkey, amount: U64): (r: Result<Accounts>)
    requires from in accounts && to in accounts
    ensures r.Ok? <==>
              && amount <= accounts[from].amount
              && accounts[from].owner == authority
              && (from == to || accounts[to].amount + amount <= U64_MAX)
    ensures r.Err? ==> r.error.Token?
    ensures r.Ok? ==> r.value.Keys == accounts.Keys
    ensures r.Ok? ==> forall k :: k in accounts && k != from && k != to ==> r.value[k] == accounts[k]
    ensures r.Ok? ==> forall k :: k in accounts ==> r.value[k].owner == accounts[k].owner
    ensures r.Ok? && from != to ==>
              && r.value[from].amount == accounts[from].amount - amount
              && r.value[to].amount == accounts[to].amount + amount
    ensures r.Ok? && from == to ==> r.value == accounts
  {
    var source := accounts[from];
    if source.amount < amount then Err(Token(TokenError.InsufficientFunds))
    else if source.owner != authority then Err(Token(OwnerMismatch))
    else if from == to then Ok(accounts)
    else if accounts[to].amount + amount > U64_MAX then Err(Token(Overflow))
    else
      var dest := accounts[to];
      Ok(accounts[from := source.(amount := source.amount - amount)]
                 [to := dest.(amount := dest.amount + amount)])
  }

  /** Total number of tokens held by the accounts of a map. */
  ghost function Supply(accounts: Accounts): nat
    decreases |accounts|
  {
    if accounts == map[] then 0
    else
      var k :| k in accounts;
      accounts[k].amount + Supply(accounts - {k})
  }

  /** Supply can be split at any account, not only at the one its definition picks. */
  lemma {:induction false} SupplyWithout(accounts: Accounts, k: Pubkey)
    requires k in accounts
    ensures Supply(accounts) == accounts[k].amount + Supply(accounts - {k})
    decreases |accounts|
  {
    var j :| j in accounts && Supply(accounts) == accounts[j].amount + Supply(accounts - {j});
    if j != k {
      var rest := accounts - {j} - {k};
      assert (accounts - {j}).Keys == accounts.Keys - {j};
      assert (accounts - {k}).Keys == accounts.Keys - {k};
      SupplyWithout(accounts - {j}, k);
      SupplyWithout(accounts - {k}, j);
      assert accounts - {j} - {k} == accounts - {k} - {j};
    }
  }

  /** A transfer conserves the total number of tokens. */
  lemma TransferPreservesSupply(accounts: Accounts, from: Pubkey, to: Pubkey, authority: Pubkey, amount: U64)
    requires from in accounts && to in accounts
    requires TransferStep(accounts, from, to, authority, amount).Ok?
    ensures Supply(TransferStep(accounts, from, to, authority, amount).value) == Supply(accounts)
  {
    var after := TransferStep(accounts, from, to, authority, amount).value;
    if from != to {
      SupplyWithout(accounts, from);
      SupplyWithout(accounts - {from}, to);
      SupplyWithout(after, from);
      SupplyWithout(after - {from}, to);
      assert after - {from} - {to} == accounts - {from} - {to};
    }
  }

  /** Moving tokens back with the destination's owner as authority undoes a
      transfer: the second transfer succeeds and restores every account. */
  lemma TransferRoundTrip(accounts: Accounts, from: Pubkey, to: Pubkey, authority: Pubkey, amount: U64)
    requires from in accounts && to in accounts
    requires TransferStep(accounts, from, to, authority, amount).Ok?
    ensures var after := TransferStep(accounts, from, to, authority, amount).value;
            TransferStep(after, to, from, accounts[to].owner, amount) == Ok(accounts)
  {
    var after := TransferStep(accounts, from, to, authority, amount).value;
    if from != to {
      var back := TransferStep(after, to, from, accounts[to].owner, amount);
      assert back.Ok?;
      assert back.value == accounts;
    }
  }

  /** The token program's account storage, updated in place by transfers. */
  class TokenProgram {
    var accounts: Accounts

    /** Cross-program call into `token::transfer`. */
    method Transfer(from: Pubkey, to: Pubkey, authority: Pubkey, amount: U64) returns (r: Result<()>)
      requires from in accounts && to in accounts
      modifies this
      ensures var s := TransferStep(old(accounts), from, to, authority, amount);
              match s
              case Ok(after) => r == Ok(()) && accounts == after
              case Err(e) => r == Err(e) && accounts == old(accounts)
    {
      var s := TransferStep(accounts, from, to, authority, amount);
      if s.Err? {
        return Err(s.error);
      }
      accounts := s.value;
      r := Ok(());
    }
  }
}
