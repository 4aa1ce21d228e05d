/**
 * `place_bet`: a user moves `amount` tokens into the vault and adds them to
 * their bet on `outcome` and to the market's pool for that outcome. The bet
 * account lives at the address derived from (market, user) and is created
 * zeroed on the user's first bet.
 */
module PlaceBet {
  import opened Numeric
  import opened Keys
  import opened Wrappers
  import opened Errors
  import opened Events
  import opened State
  import opened Token
  import opened Accounts

  datatype Placed = Placed(
    market: Market,
    bet: Bet,
    userTokens: TokenAccount,
    vault: TokenAccount,
    event: BetPlaced)

  /**
   * The instruction as written. `bet` is the bet account's data on entry
   * (`ZeroBet` when it has just been created). Neither `vault` nor the
   * bet's earlier outcome is checked.
   */
  function Place(market: Market, marketKey: Pubkey, bet: Bet, betBump: Byte, user: Pubkey,
                 userTokens: TokenAccount, vault: TokenAccount, outcome: Outcome, amount: U64, now: I64)
    : (r: Result<Placed, Error>)
    ensures now >= market.startTime ==> r == Err(Betting(MarketClosed))
    ensures now < market.startTime && market.isResolved ==> r == Err(Betting(BettingError.MarketResolved))
    ensures now < market.startTime && !market.isResolved && outcome == Pending ==> r == Err(Betting(InvalidOutcome))
    ensures (now < market.startTime && !market.isResolved && outcome != Pending
             && Transfer(userTokens, vault, user, amount).Err?)
            ==> r == Err(Token(Transfer(userTokens, vault, user, amount).error))
    ensures (now < market.startTime && !market.isResolved && outcome != Pending
             && Transfer(userTokens, vault, user, amount).Ok?
             && (bet.amount + amount > U64_MAX || Pool(market, outcome) + amount > U64_MAX))
            ==> r == Err(Betting(Overflow))
    ensures r.Ok? <==>
      && now < market.startTime && !market.isResolved && outcome != Pending
      && Transfer(userTokens, vault, user, amount).Ok?
      && bet.amount + amount <= U64_MAX
      && Pool(market, outcome) + amount <= U64_MAX
    ensures r.Ok? ==>
      // the pool of `outcome` grows by exactly `amount`, nothing else in the market changes
      && Pool(r.value.market, outcome) == Pool(market, outcome) + amount
      && (forall o :: o != outcome ==> Pool(r.value.market, o) == Pool(market, o))
      && PoolSum(r.value.market) == PoolSum(market) + amount
      && r.value.market.(totalPoolA := market.totalPoolA, totalPoolB := market.totalPoolB,
                         totalPoolDraw := market.totalPoolDraw) == market
      // the bet now belongs to the signer and this market, on `outcome`, with the sum of the stakes
      && r.value.bet == Bet(user, marketKey, outcome, bet.amount + amount, false, 0, betBump)
      // the tokens move from the user to `vault`
      && r.value.userTokens.amount == userTokens.amount - amount
      && r.value.vault.amount == vault.amount + amount
      && r.value.userTokens.owner == userTokens.owner && r.value.vault.owner == vault.owner
      && r.value.event == BetPlaced(user, marketKey, outcome, amount)
  {
    if !(now < market.startTime) then Err(Betting(MarketClosed))
    else if market.isResolved then Err(Betting(BettingError.MarketResolved))
    else if outcome == Pending then Err(Betting(InvalidOutcome))
    else match Transfer(userTokens, vault, user, amount)
      case Err(e) => Err(Token(e))
      case Ok((from, to)) =>
        match CheckedAdd(bet.amount, amount)
        case None => Err(Betting(Overflow))
        case Some(stake) =>
          match CheckedAdd(Pool(market, outcome), amount)
          case None => Err(Betting(Overflow))
          case Some(pool) =>
            Ok(Placed(WithPool(market, outcome, pool),
                      Bet(user, marketKey, outcome, stake, false, 0, betBump),
                      from, to, BetPlaced(user, marketKey, outcome, amount)))
  }

  /**
   * A second bet on another outcome succeeds and re-labels the whole stake:
   * the earlier amount now counts as a bet on `outcome`, yet it stays in the
   * pool of the earlier outcome and never reaches the pool of `outcome`.
   */
  lemma PlaceRelabelsStake(market: Market, marketKey: Pubkey, bet: Bet, betBump: Byte, user: Pubkey,
                           userTokens: TokenAccount, vault: TokenAccount, outcome: Outcome, amount: U64, now: I64)
    requires bet.amount > 0 && bet.outcome != Pending && bet.outcome != outcome
    requires Place(market, marketKey, bet, betBump, user, userTokens, vault, outcome, amount, now).Ok?
    ensures var p := Place(market, marketKey, bet, betBump, user, userTokens, vault, outcome, amount, now).value;
      && p.bet.outcome == outcome
      && p.bet.amount > Pool(p.market, outcome) - Pool(market, outcome)
      && Pool(p.market, bet.outcome) == Pool(market, bet.outcome)
  {
  }

  /**
   * Whether a bet goes through does not depend on who owns `vault`: the
   * deposit may land in any token account, the user's own included, and the
   * pool still grows.
   */
  lemma PlaceIgnoresVaultOwner(market: Market, marketKey: Pubkey, bet: Bet, betBump: Byte, user: Pubkey,
                               userTokens: TokenAccount, vault: TokenAccount, owner: Pubkey,
                               outcome: Outcome, amount: U64, now: I64)
    ensures var elsewhere := vault.(owner := owner);
      && Place(market, marketKey, bet, betBump, user, userTokens, elsewhere, outcome, amount, now).Ok?
         == Place(market, marketKey, bet, betBump, user, userTokens, vault, outcome, amount, now).Ok?
      && (Place(market, marketKey, bet, betBump, user, userTokens, elsewhere, outcome, amount, now).Ok? ==>
          Place(market, marketKey, bet, betBump, user, userTokens, elsewhere, outcome, amount, now).value.market
          == Place(market, marketKey, bet, betBump, user, userTokens, vault, outcome, amount, now).value.market)
  {
  }

  /**
   * The instruction as evidently intended: the vault must be a token account
   * of the market (`token::authority = market`, as at creation), and a bet
   * that still holds a stake may only add to its own outcome.
   */
  function PlaceChecked(market: Market, marketKey: Pubkey, bet: Bet, betBump: Byte, user: Pubkey,
                        userTokens: TokenAccount, vault: TokenAccount, outcome: Outcome, amount: U64, now: I64)
    : (r: Result<Placed, Error>)
    ensures vault.owner != marketKey ==> r == Err(Runtime(ConstraintTokenOwner))
    ensures r.Ok? <==>
      && vault.owner == marketKey
      && (bet.amount == 0 || bet.outcome == outcome)
      && Place(market, marketKey, bet, betBump, user, userTokens, vault, outcome, amount, now).Ok?
    ensures r.Ok? ==> r == Place(market, marketKey, bet, betBump, user, userTokens, vault, outcome, amount, now)
    ensures r.Ok? ==> r.value.vault.owner == marketKey
    ensures r.Ok? ==> r.value.bet.amount == bet.amount + amount && (bet.amount == 0 || r.value.bet.outcome == bet.outcome)
  {
    if vault.owner != marketKey then Err(Runtime(ConstraintTokenOwner))
    else if now < market.startTime && !market.isResolved && outcome != Pending
            && bet.amount > 0 && bet.outcome != outcome then Err(Betting(InvalidOutcome))
    else Place(market, marketKey, bet, betBump, user, userTokens, vault, outcome, amount, now)
  }

  /**
   * The handler on the accounts: the guards, the transfer, then the bet's
   * fields and the market's pool one at a time. On an error the accounts
   * may be left half-written; the runtime discards them.
   */
  method Handler(bet: Account<Bet>, market: Account<Market>, vault: Account<TokenAccount>,
                 user: Pubkey, userTokenAccount: Account<TokenAccount>,
                 outcome: Outcome, amount: U64, now: I64, betBump: Byte)
    returns (r: Result<BetPlaced, Error>)
    requires vault != userTokenAccount
    modifies bet, market, vault, userTokenAccount
    ensures var spec := Place(old(market.data), market.key, old(bet.data), betBump, user,
                              old(userTokenAccount.data), old(vault.data), outcome, amount, now);
      && (spec.Err? ==> r == Err(spec.error))
      && (spec.Ok? ==>
          && r == Ok(spec.value.event)
          && market.data == spec.value.market && bet.data == spec.value.bet
          && userTokenAccount.data == spec.value.userTokens && vault.data == spec.value.vault)
  {
    if !(now < market.data.startTime) {
      return Err(Betting(MarketClosed));
    }
    if market.data.isResolved {
      return Err(Betting(BettingError.MarketResolved));
    }
    if outcome == Pending {
      return Err(Betting(InvalidOutcome));
    }
    var transferred := TransferCpi(userTokenAccount, vault, user, amount);
    if transferred.Err? {
      return Err(Token(transferred.error));
    }
    bet.data := bet.data.(user := user);
    bet.data := bet.data.(market := market.key);
    bet.data := bet.data.(outcome := outcome);
    var stake := CheckedAdd(bet.data.amount, amount);
    if stake.None? {
      return Err(Betting(Overflow));
    }
    bet.data := bet.data.(amount := stake.value);
    bet.data := bet.data.(claimed := false);
    bet.data := bet.data.(betBump := betBump);
    bet.data := bet.data.(winnings := 0);
    match outcome {
      case TeamA =>
        var pool := CheckedAdd(market.data.totalPoolA, amount);
        if pool.None? {
          return Err(Betting(Overflow));
        }
        market.data := market.data.(totalPoolA := pool.value);
      case TeamB =>
        var pool := CheckedAdd(market.data.totalPoolB, amount);
        if pool.None? {
          return Err(Betting(Overflow));
        }
        market.data := market.data.(totalPoolB := pool.value);
      case Draw =>
        var pool := CheckedAdd(market.data.totalPoolDraw, amount);
        if pool.None? {
          return Err(Betting(Overflow));
        }
        market.data := market.data.(totalPoolDraw := pool.value);
    }
    return Ok(BetPlaced(user, market.key, outcome, amount));
  }
}
