/**
 * `claim_winnings`: a winning bet on a resolved market is paid its share of
 * everything staked, in proportion to its stake in the winning pool, less a
 * 2% platform fee; the bet is then marked claimed.
 */
module ClaimWinnings {
  import opened Numeric
  import opened Keys
  import opened Wrappers
  import opened Errors
  import opened Events
  import opened State
  import opened Token
  import opened Accounts

  /** The platform fee, in percent of the proportional share. */
  const FEE_PERCENT: nat := 2

  datatype Payout = Payout(before: U64, fee: U64, winnings: U64)

  /** `floor(stake * total / winning)`, formed in `u128` and cast back with `as u64`. */
  function Share(stake: U64, total: U64, winning: U64): (share: U64)
    requires winning > 0
    ensures stake <= winning ==> share * winning <= stake * total && share <= total
    // the share is exactly the floor of the stake's proportion of the total
    ensures stake <= winning ==> stake * total - share * winning < winning
  {
    ShareWithinTotal(stake, total, winning);
    TruncateU64(stake * total / winning)
  }

  /** A stake within the winning pool has a share within the total, so the cast keeps it intact. */
  lemma ShareWithinTotal(stake: U64, total: U64, winning: U64)
    requires 0 < winning
    ensures 0 <= stake * total / winning
    ensures stake <= winning ==>
      var q := stake * total / winning;
      q <= total && q * winning <= stake * total && stake * total - q * winning < winning && TruncateU64(q) == q
  {
    ScaleMonotone(0, stake, total);
    var p: nat := stake * total;
    FloorDivision(p, winning);
    if stake <= winning {
      ScaleMonotone(stake, winning, total);
      QuotientAtMost(p, winning, total);
    }
  }

  /** Multiplying by the same `t` keeps the order. */
  lemma ScaleMonotone(a: nat, b: nat, t: nat)
    requires a <= b
    ensures a * t <= b * t
  {
    assert b * t - a * t == (b - a) * t;
  }

  /** Integer division rounds down: the quotient is the largest multiple of `d` within `p`. */
  lemma FloorDivision(p: nat, d: nat)
    requires d > 0
    ensures (p / d) * d <= p && p - (p / d) * d < d
  {
    assert (p / d) * d + p % d == p;
  }

  /** A quotient by `d` of at most `d * t` is at most `t`. */
  lemma QuotientAtMost(p: nat, d: nat, t: nat)
    requires d > 0 && p <= t * d
    ensures p / d <= t
  {
    FloorDivision(p, d);
  }

  /**
   * The payout arithmetic. The `u128` product cannot overflow; the division
   * fails only on an empty winning pool, and the fee's `checked_mul(2)` only
   * when the share exceeds half the `u64` range.
   */
  function ComputePayout(stake: U64, total: U64, winning: U64): (r: Result<Payout, Error>)
    ensures r.Ok? <==> winning > 0 && 2 * Share(stake, total, winning) <= U64_MAX
    ensures r.Err? ==> r == Err(Betting(Overflow))
    ensures r.Ok? ==>
      && r.value.before == Share(stake, total, winning)
      && r.value.fee == r.value.before * FEE_PERCENT / 100
      && r.value.winnings + r.value.fee == r.value.before
      // the fee is 2% of the share, rounded down, so the winnings keep at least 98% of it
      && 100 * r.value.winnings >= (100 - FEE_PERCENT) * r.value.before
      && 100 * r.value.winnings < (100 - FEE_PERCENT) * r.value.before + 100
  {
    if winning == 0 then Err(Betting(Overflow))
    else
      var before := Share(stake, total, winning);
      match CheckedMul(before, FEE_PERCENT)
      case None => Err(Betting(Overflow))
      case Some(doubled) =>
        var fee := doubled / 100;
        FeeRounding(before);
        Ok(Payout(before, fee, before - fee))
  }

  lemma FeeRounding(before: nat)
    ensures before * FEE_PERCENT / 100 <= before
    ensures 100 * (before - before * FEE_PERCENT / 100) >= (100 - FEE_PERCENT) * before
    ensures 100 * (before - before * FEE_PERCENT / 100) < (100 - FEE_PERCENT) * before + 100
  {
    var q := before * FEE_PERCENT / 100;
    assert 100 * q + (before * FEE_PERCENT) % 100 == before * FEE_PERCENT;
  }

  datatype Claimed = Claimed(
    bet: Bet,
    vault: TokenAccount,
    userTokens: TokenAccount,
    event: WinningsClaimed)

  /**
   * The instruction as written. The market must be the bet's market; the
   * signer `user` is not compared with `bet.user`, and the winnings go to
   * whatever token account is passed. The vault pays with the market as
   * its signing authority.
   */
  function Claim(market: Market, marketKey: Pubkey, bet: Bet, user: Pubkey,
                 vault: TokenAccount, userTokens: TokenAccount)
    : (r: Result<Claimed, Error>)
    ensures marketKey != bet.market ==> r == Err(Betting(InvalidMarket))
    ensures marketKey == bet.market && !market.isResolved ==> r == Err(Betting(MarketNotResolved))
    ensures marketKey == bet.market && market.isResolved && bet.claimed ==> r == Err(Betting(AlreadyClaimed))
    ensures (marketKey == bet.market && market.isResolved && !bet.claimed
             && bet.outcome != market.winningOutcome) ==> r == Err(Betting(NotWinner))
    ensures (marketKey == bet.market && market.isResolved && !bet.claimed
             && bet.outcome == market.winningOutcome && market.winningPool == 0) ==> r == Err(Betting(NoWinningPool))
    ensures (marketKey == bet.market && market.isResolved && !bet.claimed
             && bet.outcome == market.winningOutcome && market.winningPool > 0
             && ComputePayout(bet.amount, market.totalPayoutPool, market.winningPool).Err?)
            ==> r == Err(Betting(Overflow))
    ensures (marketKey == bet.market && market.isResolved && !bet.claimed
             && bet.outcome == market.winningOutcome && market.winningPool > 0
             && ComputePayout(bet.amount, market.totalPayoutPool, market.winningPool).Ok?
             && Transfer(vault, userTokens, marketKey,
                         ComputePayout(bet.amount, market.totalPayoutPool, market.winningPool).value.winnings).Err?)
            ==> r == Err(Token(Transfer(vault, userTokens, marketKey,
                         ComputePayout(bet.amount, market.totalPayoutPool, market.winningPool).value.winnings).error))
    ensures r.Ok? <==>
      && marketKey == bet.market && market.isResolved && !bet.claimed
      && bet.outcome == market.winningOutcome && market.winningPool > 0
      && ComputePayout(bet.amount, market.totalPayoutPool, market.winningPool).Ok?
      && Transfer(vault, userTokens, marketKey,
                  ComputePayout(bet.amount, market.totalPayoutPool, market.winningPool).value.winnings).Ok?
    ensures r.Ok? ==>
      var paid := r.value.bet.winnings;
      && paid == ComputePayout(bet.amount, market.totalPayoutPool, market.winningPool).value.winnings
      // the bet is closed and records what it was paid; stake and side stay as they were
      && r.value.bet == bet.(claimed := true, winnings := paid)
      && r.value.vault.amount == vault.amount - paid
      && r.value.userTokens.amount == userTokens.amount + paid
      && r.value.vault.owner == vault.owner && r.value.userTokens.owner == userTokens.owner
      && r.value.event == WinningsClaimed(user, marketKey, paid)
  {
    if marketKey != bet.market then Err(Betting(InvalidMarket))
    else if !market.isResolved then Err(Betting(MarketNotResolved))
    else if bet.claimed then Err(Betting(AlreadyClaimed))
    else if bet.outcome != market.winningOutcome then Err(Betting(NotWinner))
    else if market.winningPool == 0 then Err(Betting(NoWinningPool))
    else match ComputePayout(bet.amount, market.totalPayoutPool, market.winningPool)
      case Err(e) => Err(e)
      case Ok(payout) =>
        match Transfer(vault, userTokens, marketKey, payout.winnings)
        case Err(e) => Err(Token(e))
        case Ok((from, to)) =>
          Ok(Claimed(bet.(claimed := true, winnings := payout.winnings), from, to,
                     WinningsClaimed(user, marketKey, payout.winnings)))
  }

  /** A claimed bet cannot be claimed again, by anyone. */
  lemma ClaimOnce(market: Market, marketKey: Pubkey, bet: Bet, user: Pubkey,
                  vault: TokenAccount, userTokens: TokenAccount,
                  user': Pubkey, vault': TokenAccount, userTokens': TokenAccount)
    requires Claim(market, marketKey, bet, user, vault, userTokens).Ok?
    ensures Claim(market, marketKey, Claim(market, marketKey, bet, user, vault, userTokens).value.bet,
                  user', vault', userTokens') == Err(Betting(AlreadyClaimed))
  {
  }

  /**
   * Any signer can claim any winning bet and have the winnings paid into a
   * token account of their own: the outcome is the same as for the bettor.
   */
  lemma ClaimIgnoresSigner(market: Market, marketKey: Pubkey, bet: Bet,
                           vault: TokenAccount, userTokens: TokenAccount, thief: Pubkey)
    requires thief != bet.user
    requires Claim(market, marketKey, bet, bet.user, vault, userTokens).Ok?
    ensures var stolen := Claim(market, marketKey, bet, thief, vault, userTokens.(owner := thief));
      && stolen.Ok?
      && stolen.value.userTokens.owner == thief
      && stolen.value.userTokens.amount == userTokens.amount + stolen.value.bet.winnings
      && stolen.value.bet == Claim(market, marketKey, bet, bet.user, vault, userTokens).value.bet
  {
  }

  /** The claim as evidently intended: only the bettor may sign it. */
  function ClaimOwned(market: Market, marketKey: Pubkey, bet: Bet, user: Pubkey,
                      vault: TokenAccount, userTokens: TokenAccount)
    : (r: Result<Claimed, Error>)
    ensures bet.user != user ==> r == Err(Betting(Unauthorized))
    ensures r.Ok? <==> bet.user == user && Claim(market, marketKey, bet, user, vault, userTokens).Ok?
    ensures r.Ok? ==> r == Claim(market, marketKey, bet, user, vault, userTokens)
    ensures r.Ok? ==> r.value.event.user == r.value.bet.user
  {
    if bet.user != user then Err(Betting(Unauthorized))
    else Claim(market, marketKey, bet, user, vault, userTokens)
  }

  /**
   * The handler: the checks, the payout chain, the transfer out of the vault,
   * then the two bet fields. The market is only read.
   */
  method Handler(bet: Account<Bet>, market: Account<Market>, vault: Account<TokenAccount>,
                 user: Pubkey, userTokenAccount: Account<TokenAccount>)
    returns (r: Result<WinningsClaimed, Error>)
    requires vault != userTokenAccount
    modifies bet, vault, userTokenAccount
    ensures var spec := Claim(market.data, market.key, old(bet.data), user,
                              old(vault.data), old(userTokenAccount.data));
      && (spec.Err? ==> r == Err(spec.error))
      && (spec.Ok? ==>
          && r == Ok(spec.value.event) && bet.data == spec.value.bet
          && vault.data == spec.value.vault && userTokenAccount.data == spec.value.userTokens)
  {
    if market.key != bet.data.market {
      return Err(Betting(InvalidMarket));
    }
    if !market.data.isResolved {
      return Err(Betting(MarketNotResolved));
    }
    if bet.data.claimed {
      return Err(Betting(AlreadyClaimed));
    }
    if bet.data.outcome != market.data.winningOutcome {
      return Err(Betting(NotWinner));
    }
    if market.data.winningPool == 0 {
      return Err(Betting(NoWinningPool));
    }
    var payout := ComputePayout(bet.data.amount, market.data.totalPayoutPool, market.data.winningPool);
    if payout.Err? {
      return Err(payout.error);
    }
    var winnings := payout.value.winnings;
    var transferred := TransferCpi(vault, userTokenAccount, market.key, winnings);
    if transferred.Err? {
      return Err(Token(transferred.error));
    }
    bet.data := bet.data.(claimed := true);
    bet.data := bet.data.(winnings := winnings);
    return Ok(WinningsClaimed(user, market.key, winnings));
  }
}
