/**
 * The token program, only as far as the instructions use it: a token
 * account has an owner and a `u64` balance, and a transfer moves an amount
 * from one account to another when the owner of the source authorises it.
 * Mints, delegates and frozen accounts are not modelled.
 */
module Token {
  import opened Numeric
  import opened Keys
  import opened Wrappers
  import opened Errors
  import opened Accounts

  datatype TokenAccount = TokenAccount(owner: Pubkey, amount: U64)

  /**
   * A transfer, checked in the token program's order: the balance first,
   * then the signing authority, then the destination's capacity.
   */
  function Transfer(from: TokenAccount, to: TokenAccount, authority: Pubkey, amount: U64)
    : (r: Result<(TokenAccount, TokenAccount), TokenError>)
    ensures r.Ok? <==> amount <= from.amount && from.owner == authority && to.amount + amount <= U64_MAX
    ensures amount > from.amount ==> r == Err(InsufficientFunds)
    ensures amount <= from.amount && from.owner != authority ==> r == Err(OwnerMismatch)
    ensures r.Ok? ==> r.value.0.owner == from.owner && r.value.1.owner == to.owner
    ensures r.Ok? ==> r.value.0.amount == from.amount - amount && r.value.1.amount == to.amount + amount
  {
    if from.amount < amount then Err(InsufficientFunds)
    else if from.owner != authority then Err(OwnerMismatch)
    else if to.amount + amount > U64_MAX then Err(TokenOverflow)
    else Ok((from.(amount := from.amount - amount), to.(amount := to.amount + amount)))
  }

  /** A transfer moves tokens; it never creates or destroys them. */
  lemma TransferConserves(from: TokenAccount, to: TokenAccount, authority: Pubkey, amount: U64)
    requires Transfer(from, to, authority, amount).Ok?
    ensures var (f, t) := Transfer(from, to, authority, amount).value; f.amount + t.amount == from.amount + to.amount
  {
  }

  /** The cross-program call: both accounts change together or not at all. */
  method TransferCpi(from: Account<TokenAccount>, to: Account<TokenAccount>, authority: Pubkey, amount: U64)
    returns (r: Result<(), TokenError>)
    requires from != to
    modifies from, to
    ensures var spec := Transfer(old(from.data), old(to.data), authority, amount);
      && (spec.Ok? ==> r.Ok? && from.data == spec.value.0 && to.data == spec.value.1)
      && (spec.Err? ==> r == Err(spec.error) && from.data == old(from.data) && to.data == old(to.data))
  {
    if from.data.amount < amount {
      return Err(InsufficientFunds);
    }
    if from.data.owner != authority {
      return Err(OwnerMismatch);
    }
    if to.data.amount + amount > U64_MAX {
      return Err(TokenOverflow);
    }
    from.data := from.data.(amount := from.data.amount - amount);
    to.data := to.data.(amount := to.data.amount + amount);
    return Ok(());
  }
}
