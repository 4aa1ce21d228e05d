/**
 * `create_market`: the market account is created at the address derived
 * from the game id, its vault at the address derived from the market, and
 * the handler then fills in every field of the new market.
 */
module CreateMarket {
  import opened Numeric
  import opened Keys
  import opened Wrappers
  import opened Errors
  import opened Events
  import opened State
  import opened Token
  import opened Accounts
  import Seeds
  import Utf8

  /** The market the handler writes: the arguments, empty pools, nothing resolved. */
  function NewMarket(authority: Pubkey, gameId: string, teamA: string, teamB: string,
                     startTime: I64, oracleFeed: Pubkey, marketBump: Byte, vaultBump: Byte): (m: Market)
    ensures m.authority == authority && m.gameId == gameId && m.teamA == teamA && m.teamB == teamB
    ensures m.startTime == startTime && m.oracleFeed == oracleFeed
    ensures forall o :: Pool(m, o) == 0
    ensures !m.isResolved && m.winningOutcome == Pending
    ensures m.resolvedAt == 0 && m.totalPayoutPool == 0 && m.winningPool == 0
  {
    Market(authority, gameId, teamA, teamB, startTime, oracleFeed, 0, 0, 0,
           false, Pending, 0, 0, 0, marketBump, vaultBump)
  }

  datatype Created = Created(
    marketKey: Pubkey,
    market: Market,
    vaultKey: Pubkey,
    vault: TokenAccount,
    event: MarketCreated)

  /**
   * The whole instruction. `accounts` holds the addresses already in use;
   * `init` refuses any of them. The game id is a seed, so its UTF-8 form is
   * bounded by the runtime's seed length, and the filled-in market must fit
   * the space reserved for it.
   */
  function Create(accounts: set<Pubkey>, derive: Seeds.Derive, program: Pubkey,
                  authority: Pubkey, gameId: string, teamA: string, teamB: string,
                  startTime: I64, oracleFeed: Pubkey, marketBump: Byte, vaultBump: Byte)
    : (r: Result<Created, Error>)
    ensures !Seeds.SeedsAccepted(Seeds.MarketSeeds(gameId)) ==> r == Err(Runtime(MaxSeedLengthExceeded))
    ensures Seeds.Address(derive, program, Seeds.MarketSeeds(gameId)) in accounts ==> r.Err?
    ensures (Seeds.SeedsAccepted(Seeds.MarketSeeds(gameId))
             && (Seeds.Address(derive, program, Seeds.MarketSeeds(gameId)) in accounts
                 || Seeds.Address(derive, program, Seeds.VaultSeeds(Seeds.Address(derive, program, Seeds.MarketSeeds(gameId)))) in accounts))
            ==> r == Err(Runtime(AccountAlreadyInUse))
    ensures (Seeds.SeedsAccepted(Seeds.MarketSeeds(gameId))
             && Seeds.Address(derive, program, Seeds.MarketSeeds(gameId)) !in accounts
             && Seeds.Address(derive, program, Seeds.VaultSeeds(Seeds.Address(derive, program, Seeds.MarketSeeds(gameId)))) !in accounts
             && !MarketFits(NewMarket(authority, gameId, teamA, teamB, startTime, oracleFeed, marketBump, vaultBump)))
            ==> r == Err(Runtime(AccountDidNotSerialize))
    ensures r.Ok? <==>
      && Seeds.SeedsAccepted(Seeds.MarketSeeds(gameId))
      && Seeds.Address(derive, program, Seeds.MarketSeeds(gameId)) !in accounts
      && Seeds.Address(derive, program, Seeds.VaultSeeds(Seeds.Address(derive, program, Seeds.MarketSeeds(gameId)))) !in accounts
      && MarketFits(NewMarket(authority, gameId, teamA, teamB, startTime, oracleFeed, marketBump, vaultBump))
    ensures r.Ok? ==>
      && r.value.marketKey == Seeds.Address(derive, program, Seeds.MarketSeeds(gameId))
      && r.value.vaultKey == Seeds.Address(derive, program, Seeds.VaultSeeds(r.value.marketKey))
      && r.value.market == NewMarket(authority, gameId, teamA, teamB, startTime, oracleFeed, marketBump, vaultBump)
      && r.value.vault == TokenAccount(r.value.marketKey, 0)
      && r.value.event == MarketCreated(r.value.marketKey, gameId, startTime)
  {
    var seeds := Seeds.MarketSeeds(gameId);
    if !Seeds.SeedsAccepted(seeds) then Err(Runtime(MaxSeedLengthExceeded))
    else
      var marketKey := Seeds.Address(derive, program, seeds);
      var vaultKey := Seeds.Address(derive, program, Seeds.VaultSeeds(marketKey));
      if marketKey in accounts || vaultKey in accounts then Err(Runtime(AccountAlreadyInUse))
      else
        var market := NewMarket(authority, gameId, teamA, teamB, startTime, oracleFeed, marketBump, vaultBump);
        if !MarketFits(market) then Err(Runtime(AccountDidNotSerialize))
        else Ok(Created(marketKey, market, vaultKey, TokenAccount(marketKey, 0),
                        MarketCreated(marketKey, gameId, startTime)))
  }

  /**
   * Once a market exists for a game id, creating one for the same game id
   * fails, whoever asks and whatever the other arguments.
   */
  lemma CreateOnce(accounts: set<Pubkey>, derive: Seeds.Derive, program: Pubkey,
                   authority: Pubkey, gameId: string, teamA: string, teamB: string,
                   startTime: I64, oracleFeed: Pubkey, marketBump: Byte, vaultBump: Byte,
                   authority': Pubkey, teamA': string, teamB': string,
                   startTime': I64, oracleFeed': Pubkey, marketBump': Byte, vaultBump': Byte)
    requires Create(accounts, derive, program, authority, gameId, teamA, teamB, startTime, oracleFeed, marketBump, vaultBump).Ok?
    ensures var c := Create(accounts, derive, program, authority, gameId, teamA, teamB, startTime, oracleFeed, marketBump, vaultBump).value;
      Create(accounts + {c.marketKey, c.vaultKey}, derive, program, authority', gameId, teamA', teamB',
             startTime', oracleFeed', marketBump', vaultBump') == Err(Runtime(AccountAlreadyInUse))
  {
  }

  /**
   * A game id of at most 32 UTF-8 bytes is a valid seed, and with each text
   * field at most 60 bytes the market fits, so creation then fails only on
   * an address already in use.
   */
  lemma CreateSucceeds(accounts: set<Pubkey>, derive: Seeds.Derive, program: Pubkey,
                       authority: Pubkey, gameId: string, teamA: string, teamB: string,
                       startTime: I64, oracleFeed: Pubkey, marketBump: Byte, vaultBump: Byte)
    requires |Utf8.Encode(gameId)| <= Seeds.MAX_SEED_LEN
    requires |Utf8.Encode(teamA)| <= 60 && |Utf8.Encode(teamB)| <= 60
    requires Seeds.Address(derive, program, Seeds.MarketSeeds(gameId)) !in accounts
    requires Seeds.Address(derive, program, Seeds.VaultSeeds(Seeds.Address(derive, program, Seeds.MarketSeeds(gameId)))) !in accounts
    ensures Create(accounts, derive, program, authority, gameId, teamA, teamB, startTime, oracleFeed, marketBump, vaultBump).Ok?
  {
    MarketFitsIff(NewMarket(authority, gameId, teamA, teamB, startTime, oracleFeed, marketBump, vaultBump));
  }

  /** The handler: fifteen field assignments on the freshly created account. */
  method Handler(market: Account<Market>, authority: Pubkey, gameId: string, teamA: string, teamB: string,
                 startTime: I64, oracleFeed: Pubkey, marketBump: Byte, vaultBump: Byte)
    returns (event: MarketCreated)
    modifies market
    ensures market.data == NewMarket(authority, gameId, teamA, teamB, startTime, oracleFeed, marketBump, vaultBump)
    ensures event == MarketCreated(market.key, gameId, startTime)
  {
    market.data := market.data.(authority := authority);
    market.data := market.data.(gameId := gameId);
    market.data := market.data.(teamA := teamA);
    market.data := market.data.(teamB := teamB);
    market.data := market.data.(startTime := startTime);
    market.data := market.data.(oracleFeed := oracleFeed);
    market.data := market.data.(totalPoolA := 0);
    market.data := market.data.(totalPoolB := 0);
    market.data := market.data.(totalPoolDraw := 0);
    market.data := market.data.(isResolved := false);
    market.data := market.data.(winningOutcome := Pending);
    market.data := market.data.(marketBump := marketBump);
    market.data := market.data.(vaultBump := vaultBump);
    market.data := market.data.(resolvedAt := 0);
    market.data := market.data.(totalPayoutPool := 0);
    market.data := market.data.(winningPool := 0);
    event := MarketCreated(market.key, gameId, startTime);
  }
}
