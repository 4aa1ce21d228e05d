/**
 * `resolve_market`: the market's authority records the winning outcome
 * once the game is over, together with the two totals that claims divide:
 * all three pools, and the winning pool.
 */
module ResolveMarket {
  import opened Numeric
  import opened Keys
  import opened Wrappers
  import opened Errors
  import opened Events
  import opened State
  import opened Accounts

  /** Seconds after the start before a market may be resolved: three hours. */
  const GAME_DURATION: int := 10800

  datatype Resolution = Resolution(market: Market, event: MarketResolved)

  /**
   * The instruction. The authority check is the account constraint and comes
   * first; `start_time + 10800` and the sum of the pools are plain `i64` and
   * `u64` additions, which abort the instruction when they overflow.
   */
  function Resolve(market: Market, marketKey: Pubkey, resolver: Pubkey, winner: Outcome, now: I64)
    : (r: Result<Resolution, Error>)
    ensures resolver != market.authority ==> r == Err(Betting(Unauthorized))
    ensures resolver == market.authority && market.startTime + GAME_DURATION > I64_MAX
            ==> r == Err(Runtime(ArithmeticOverflow))
    ensures (resolver == market.authority && market.startTime + GAME_DURATION <= I64_MAX
             && now <= market.startTime + GAME_DURATION) ==> r == Err(Betting(GameNotComplete))
    ensures (resolver == market.authority && now > market.startTime + GAME_DURATION
             && market.isResolved) ==> r == Err(Betting(AlreadyResolved))
    ensures (resolver == market.authority && now > market.startTime + GAME_DURATION
             && !market.isResolved && winner == Pending) ==> r == Err(Betting(InvalidOutcome))
    ensures (resolver == market.authority && now > market.startTime + GAME_DURATION
             && !market.isResolved && winner != Pending && PoolSum(market) > U64_MAX)
            ==> r == Err(Runtime(ArithmeticOverflow))
    ensures r.Ok? <==>
      && resolver == market.authority
      && now > market.startTime + GAME_DURATION
      && !market.isResolved && winner != Pending
      && PoolSum(market) <= U64_MAX
    ensures r.Ok? ==>
      var m := r.value.market;
      && m.isResolved && m.winningOutcome == winner && m.resolvedAt == now
      // the snapshot claims divide: everything staked, and the stake on the winner
      && m.totalPayoutPool == PoolSum(market)
      && m.winningPool == Pool(market, winner)
      && m.winningPool <= m.totalPayoutPool
      // the pools and the market's terms are untouched
      && (forall o :: Pool(m, o) == Pool(market, o))
      && SameTerms(m, market)
      && r.value.event == MarketResolved.MarketResolved(marketKey, winner, m.totalPayoutPool)
  {
    if resolver != market.authority then Err(Betting(Unauthorized))
    else if market.startTime + GAME_DURATION > I64_MAX then Err(Runtime(ArithmeticOverflow))
    else if !(now > market.startTime + GAME_DURATION) then Err(Betting(GameNotComplete))
    else if market.isResolved then Err(Betting(AlreadyResolved))
    else if winner == Pending then Err(Betting(InvalidOutcome))
    else if PoolSum(market) > U64_MAX then Err(Runtime(ArithmeticOverflow))
    else
      var resolved := market.(isResolved := true, winningOutcome := winner, resolvedAt := now,
                              totalPayoutPool := PoolSum(market), winningPool := Pool(market, winner));
      Ok(Resolution(resolved, MarketResolved.MarketResolved(marketKey, winner, PoolSum(market))))
  }

  /** Resolution happens at most once: a resolved market refuses every further resolution. */
  lemma ResolveOnce(market: Market, marketKey: Pubkey, resolver: Pubkey, winner: Outcome, now: I64,
                    resolver': Pubkey, winner': Outcome, now': I64)
    requires Resolve(market, marketKey, resolver, winner, now).Ok?
    ensures Resolve(Resolve(market, marketKey, resolver, winner, now).value.market, marketKey,
                    resolver', winner', now').Err?
  {
  }

  /** The handler: three guards, then the fields written in the source's order. */
  method Handler(market: Account<Market>, resolver: Pubkey, winner: Outcome, now: I64)
    returns (r: Result<MarketResolved, Error>)
    modifies market
    ensures var spec := Resolve(old(market.data), market.key, resolver, winner, now);
      && (spec.Err? ==> r == Err(spec.error))
      && (spec.Ok? ==> r == Ok(spec.value.event) && market.data == spec.value.market)
  {
    if resolver != market.data.authority {
      return Err(Betting(Unauthorized));
    }
    if market.data.startTime + GAME_DURATION > I64_MAX {
      return Err(Runtime(ArithmeticOverflow));
    }
    if !(now > market.data.startTime + GAME_DURATION) {
      return Err(Betting(GameNotComplete));
    }
    if market.data.isResolved {
      return Err(Betting(AlreadyResolved));
    }
    if winner == Pending {
      return Err(Betting(InvalidOutcome));
    }
    market.data := market.data.(isResolved := true);
    market.data := market.data.(winningOutcome := winner);
    market.data := market.data.(resolvedAt := now);
    var total := market.data.totalPoolA + market.data.totalPoolB + market.data.totalPoolDraw;
    if total > U64_MAX {
      return Err(Runtime(ArithmeticOverflow));
    }
    var winning := match winner
      case TeamA => market.data.totalPoolA
      case TeamB => market.data.totalPoolB
      case Draw => market.data.totalPoolDraw
      case Pending => 0;
    market.data := market.data.(totalPayoutPool := total);
    market.data := market.data.(winningPool := winning);
    return Ok(MarketResolved.MarketResolved(market.key, winner, total));
  }
}
