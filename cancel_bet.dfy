/**
 * `cancel_bet`: until an hour before the game starts, a bettor may take
 * their stake back out of the vault; the stake leaves its pool and the bet
 * is zeroed and closed.
 */
module CancelBet {
  import opened Numeric
  import opened Keys
  import opened Wrappers
  import opened Errors
  import opened Events
  import opened State
  import opened Token
  import opened Accounts
  import PlaceBet

  /** Seconds before the start after which a bet can no longer be cancelled: one hour. */
  const CANCEL_CUTOFF: int := 3600

  datatype Cancelled = Cancelled(
    market: Market,
    bet: Bet,
    vault: TokenAccount,
    userTokens: TokenAccount,
    event: BetCancelled)

  /**
   * The instruction as written. The signer must be the bettor; the market
   * passed in is not compared with `bet.market`, and the window and the
   * resolution are those of the market passed in. `start_time - 3600` is a
   * plain `i64` subtraction.
   */
  function Cancel(market: Market, marketKey: Pubkey, bet: Bet, user: Pubkey,
                  vault: TokenAccount, userTokens: TokenAccount, now: I64)
    : (r: Result<Cancelled, Error>)
    ensures bet.user != user ==> r == Err(Betting(Unauthorized))
    ensures bet.user == user && market.startTime - CANCEL_CUTOFF < I64_MIN ==> r == Err(Runtime(ArithmeticOverflow))
    ensures (bet.user == user && market.startTime - CANCEL_CUTOFF >= I64_MIN
             && now >= market.startTime - CANCEL_CUTOFF) ==> r == Err(Betting(TooLateToCanel))
    ensures (bet.user == user && now < market.startTime - CANCEL_CUTOFF
             && market.isResolved) ==> r == Err(Betting(BettingError.MarketResolved))
    ensures (bet.user == user && now < market.startTime - CANCEL_CUTOFF && !market.isResolved
             && bet.outcome == Pending) ==> r == Err(Betting(InvalidOutcome))
    ensures (bet.user == user && now < market.startTime - CANCEL_CUTOFF && !market.isResolved
             && bet.outcome != Pending && bet.amount > Pool(market, bet.outcome)) ==> r == Err(Betting(Underflow))
    ensures (bet.user == user && now < market.startTime - CANCEL_CUTOFF && !market.isResolved
             && bet.outcome != Pending && bet.amount <= Pool(market, bet.outcome)
             && Transfer(vault, userTokens, marketKey, bet.amount).Err?)
            ==> r == Err(Token(Transfer(vault, userTokens, marketKey, bet.amount).error))
    ensures r.Ok? <==>
      && bet.user == user
      && now < market.startTime - CANCEL_CUTOFF && !market.isResolved
      && bet.outcome != Pending && bet.amount <= Pool(market, bet.outcome)
      && Transfer(vault, userTokens, marketKey, bet.amount).Ok?
    ensures r.Ok? ==>
      // the stake leaves the pool of its outcome and nothing else in the market changes
      && Pool(r.value.market, bet.outcome) == Pool(market, bet.outcome) - bet.amount
      && (forall o :: o != bet.outcome ==> Pool(r.value.market, o) == Pool(market, o))
      && PoolSum(r.value.market) == PoolSum(market) - bet.amount
      && r.value.market.(totalPoolA := market.totalPoolA, totalPoolB := market.totalPoolB,
                         totalPoolDraw := market.totalPoolDraw) == market
      // the whole stake goes back, and the bet is left empty and closed
      && r.value.vault.amount == vault.amount - bet.amount
      && r.value.userTokens.amount == userTokens.amount + bet.amount
      && r.value.vault.owner == vault.owner && r.value.userTokens.owner == userTokens.owner
      && r.value.bet == bet.(amount := 0, claimed := true)
      && r.value.event == BetCancelled(user, marketKey, bet.amount)
  {
    if bet.user != user then Err(Betting(Unauthorized))
    else if market.startTime - CANCEL_CUTOFF < I64_MIN then Err(Runtime(ArithmeticOverflow))
    else if !(now < market.startTime - CANCEL_CUTOFF) then Err(Betting(TooLateToCanel))
    else if market.isResolved then Err(Betting(BettingError.MarketResolved))
    else
      var refund := bet.amount;
      if bet.outcome == Pending then Err(Betting(InvalidOutcome))
      else match CheckedSub(Pool(market, bet.outcome), refund)
        case None => Err(Betting(Underflow))
        case Some(pool) =>
          match Transfer(vault, userTokens, marketKey, refund)
          case Err(e) => Err(Token(e))
          case Ok((from, to)) =>
            Ok(Cancelled(WithPool(market, bet.outcome, pool), bet.(amount := 0, claimed := true),
                         from, to, BetCancelled(user, marketKey, refund)))
  }

  /** A second cancel goes through but refunds nothing and changes no pool. */
  lemma CancelTwice(market: Market, marketKey: Pubkey, bet: Bet, user: Pubkey,
                    vault: TokenAccount, userTokens: TokenAccount, now: I64)
    requires Cancel(market, marketKey, bet, user, vault, userTokens, now).Ok?
    ensures var c := Cancel(market, marketKey, bet, user, vault, userTokens, now).value;
      var again := Cancel(c.market, marketKey, c.bet, user, c.vault, c.userTokens, now);
      && again.Ok?
      && again.value.event.refund == 0
      && again.value.market == c.market
      && again.value.vault == c.vault && again.value.userTokens == c.userTokens
  {
  }

  /**
   * Cancelling a bet placed on an empty bet account, in time, restores the
   * market's pools and both token balances to what they were before the bet.
   */
  lemma CancelUndoesPlace(market: Market, marketKey: Pubkey, bet: Bet, betBump: Byte, user: Pubkey,
                          userTokens: TokenAccount, vault: TokenAccount, outcome: Outcome, amount: U64,
                          placedAt: I64, now: I64)
    requires bet.amount == 0 && vault.owner == marketKey
    requires PlaceBet.Place(market, marketKey, bet, betBump, user, userTokens, vault, outcome, amount, placedAt).Ok?
    requires now < market.startTime - CANCEL_CUTOFF
    ensures var p := PlaceBet.Place(market, marketKey, bet, betBump, user, userTokens, vault, outcome, amount, placedAt).value;
      var c := Cancel(p.market, marketKey, p.bet, user, p.vault, p.userTokens, now);
      && c.Ok?
      && c.value.market == market
      && c.value.vault == vault && c.value.userTokens == userTokens
      && c.value.event.refund == amount
  {
    var p := PlaceBet.Place(market, marketKey, bet, betBump, user, userTokens, vault, outcome, amount, placedAt).value;
    var c := Cancel(p.market, marketKey, p.bet, user, p.vault, p.userTokens, now);
    assert c.Ok?;
    assert Pool(c.value.market, outcome) == Pool(market, outcome);
    assert forall o :: Pool(c.value.market, o) == Pool(market, o);
  }

  /**
   * Whether a cancel goes through does not depend on which market the bet
   * belongs to: a bet on one market can be refunded against any other
   * market whose window is open, from that market's vault.
   */
  lemma CancelIgnoresBetMarket(market: Market, marketKey: Pubkey, bet: Bet, user: Pubkey,
                               vault: TokenAccount, userTokens: TokenAccount, now: I64, other: Pubkey)
    ensures Cancel(market, marketKey, bet.(market := other), user, vault, userTokens, now).Ok?
            == Cancel(market, marketKey, bet, user, vault, userTokens, now).Ok?
  {
  }

  /** The cancel as evidently intended: the market passed in must be the bet's own. */
  function CancelLinked(market: Market, marketKey: Pubkey, bet: Bet, user: Pubkey,
                        vault: TokenAccount, userTokens: TokenAccount, now: I64)
    : (r: Result<Cancelled, Error>)
    ensures bet.user == user && bet.market != marketKey ==> r == Err(Betting(InvalidMarket))
    ensures r.Ok? <==> bet.market == marketKey && Cancel(market, marketKey, bet, user, vault, userTokens, now).Ok?
    ensures r.Ok? ==> r == Cancel(market, marketKey, bet, user, vault, userTokens, now)
    ensures r.Ok? ==> r.value.bet.market == marketKey && r.value.event.market == bet.market
  {
    if bet.user != user then Err(Betting(Unauthorized))
    else if bet.market != marketKey then Err(Betting(InvalidMarket))
    else Cancel(market, marketKey, bet, user, vault, userTokens, now)
  }

  /**
   * The handler: the window and resolution checks, the pool decrement, the
   * refund out of the vault, then the two bet fields.
   */
  method Handler(bet: Account<Bet>, market: Account<Market>, vault: Account<TokenAccount>,
                 user: Pubkey, userTokenAccount: Account<TokenAccount>, now: I64)
    returns (r: Result<BetCancelled, Error>)
    requires vault != userTokenAccount
    modifies bet, market, vault, userTokenAccount
    ensures var spec := Cancel(old(market.data), market.key, old(bet.data), user,
                               old(vault.data), old(userTokenAccount.data), now);
      && (spec.Err? ==> r == Err(spec.error))
      && (spec.Ok? ==>
          && r == Ok(spec.value.event) && market.data == spec.value.market && bet.data == spec.value.bet
          && vault.data == spec.value.vault && userTokenAccount.data == spec.value.userTokens)
  {
    if bet.data.user != user {
      return Err(Betting(Unauthorized));
    }
    if market.data.startTime - CANCEL_CUTOFF < I64_MIN {
      return Err(Runtime(ArithmeticOverflow));
    }
    if !(now < market.data.startTime - CANCEL_CUTOFF) {
      return Err(Betting(TooLateToCanel));
    }
    if market.data.isResolved {
      return Err(Betting(BettingError.MarketResolved));
    }
    var refund := bet.data.amount;
    match bet.data.outcome {
      case TeamA =>
        var pool := CheckedSub(market.data.totalPoolA, refund);
        if pool.None? {
          return Err(Betting(Underflow));
        }
        market.data := market.data.(totalPoolA := pool.value);
      case TeamB =>
        var pool := CheckedSub(market.data.totalPoolB, refund);
        if pool.None? {
          return Err(Betting(Underflow));
        }
        market.data := market.data.(totalPoolB := pool.value);
      case Draw =>
        var pool := CheckedSub(market.data.totalPoolDraw, refund);
        if pool.None? {
          return Err(Betting(Underflow));
        }
        market.data := market.data.(totalPoolDraw := pool.value);
      case Pending =>
        return Err(Betting(InvalidOutcome));
    }
    var transferred := TransferCpi(vault, userTokenAccount, market.key, refund);
    if transferred.Err? {
      return Err(Token(transferred.error));
    }
    bet.data := bet.data.(amount := 0);
    bet.data := bet.data.(claimed := true);
    return Ok(BetCancelled(user, market.key, refund));
  }
}
