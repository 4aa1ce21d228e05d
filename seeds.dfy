/**
 * Program-derived addresses as the program declares them: each account
 * kind has a seed family made of a fixed tag and the raw bytes of the
 * identifiers it depends on. The hash that turns seeds and the program id
 * into an address is not modelled; every address is `derive(seeds, program)`
 * for a `derive` the caller supplies.
 */
module Seeds {
  import opened Numeric
  import opened Keys
  import Utf8

  /** `b"market"`, `b"vault"`, `b"bet"` */
  const MARKET_TAG: seq<Byte> := [0x6d, 0x61, 0x72, 0x6b, 0x65, 0x74]
  const VAULT_TAG: seq<Byte> := [0x76, 0x61, 0x75, 0x6c, 0x74]
  const BET_TAG: seq<Byte> := [0x62, 0x65, 0x74]

  /** The runtime's bounds on a seed list. */
  const MAX_SEED_LEN: nat := 32
  const MAX_SEEDS: nat := 16

  type Seeds = seq<seq<Byte>>
  type Derive = (Seeds, Pubkey) -> Pubkey

  /**
   * Whether the runtime accepts `seeds` for derivation at all: every seed at
   * most 32 bytes, and room left for the bump seed that the search appends.
   */
  predicate SeedsAccepted(seeds: Seeds) {
    |seeds| < MAX_SEEDS && forall i :: 0 <= i < |seeds| ==> |seeds[i]| <= MAX_SEED_LEN
  }

  /** `[b"market", game_id.as_bytes()]`: only the game id's length can make it unacceptable. */
  function MarketSeeds(gameId: string): (r: Seeds)
    ensures SeedsAccepted(r) <==> |Utf8.Encode(gameId)| <= MAX_SEED_LEN
  {
    var r := [MARKET_TAG, Utf8.Encode(gameId)];
    assert r[1] == Utf8.Encode(gameId);
    r
  }

  /** `[b"vault", market.key().as_ref()]`: a 32-byte key is always an acceptable seed. */
  function VaultSeeds(market: Pubkey): (r: Seeds)
    ensures SeedsAccepted(r)
  {
    [VAULT_TAG, market]
  }

  /** `[b"bet", market.key().as_ref(), user.key().as_ref()]`, always acceptable. */
  function BetSeeds(market: Pubkey, user: Pubkey): (r: Seeds)
    ensures SeedsAccepted(r)
  {
    [BET_TAG, market, user]
  }

  function Address(derive: Derive, program: Pubkey, seeds: Seeds): Pubkey {
    derive(seeds, program)
  }

  /** Distinct game ids give distinct seed lists: one market per game id and one game id per market seed list. */
  lemma MarketSeedsInjective(g1: string, g2: string)
    ensures MarketSeeds(g1) == MarketSeeds(g2) <==> g1 == g2
  {
    if MarketSeeds(g1) == MarketSeeds(g2) {
      assert Utf8.Encode(g1) == MarketSeeds(g1)[1];
      Utf8.EncodeInjective(g1, g2);
    }
  }

  /** The bet seed list names exactly one (market, user) pair. */
  lemma BetSeedsInjective(m1: Pubkey, u1: Pubkey, m2: Pubkey, u2: Pubkey)
    ensures BetSeeds(m1, u1) == BetSeeds(m2, u2) <==> m1 == m2 && u1 == u2
  {
    if BetSeeds(m1, u1) == BetSeeds(m2, u2) {
      assert BetSeeds(m1, u1)[1] == m1 && BetSeeds(m1, u1)[2] == u1;
    }
  }

  /** The three seed families never share a seed list, whatever the identifiers. */
  lemma SeedFamiliesDisjoint(g: string, m: Pubkey, m2: Pubkey, u: Pubkey)
    ensures MarketSeeds(g) != VaultSeeds(m)
    ensures MarketSeeds(g) != BetSeeds(m2, u)
    ensures VaultSeeds(m) != BetSeeds(m2, u)
  {
    assert MarketSeeds(g)[0] != VaultSeeds(m)[0];
    assert |MarketSeeds(g)| != |BetSeeds(m2, u)|;
    assert |VaultSeeds(m)| != |BetSeeds(m2, u)|;
  }
}
