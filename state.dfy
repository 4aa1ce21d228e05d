/**
 * The two program-owned account records, `Market` and `Bet`, their Borsh
 * layout behind an 8-byte account discriminator, and the space (`LEN`)
 * reserved for each when the account is created.
 */
module State {
  import opened Numeric
  import opened Keys
  import opened Events
  import opened Wrappers
  import Utf8

  datatype Market = Market(
    authority: Pubkey,
    gameId: string,
    teamA: string,
    teamB: string,
    startTime: I64,
    oracleFeed: Pubkey,
    totalPoolA: U64,
    totalPoolB: U64,
    totalPoolDraw: U64,
    isResolved: bool,
    winningOutcome: Outcome,
    resolvedAt: I64,
    totalPayoutPool: U64,
    winningPool: U64,
    marketBump: Byte,
    vaultBump: Byte)

  datatype Bet = Bet(
    user: Pubkey,
    market: Pubkey,
    outcome: Outcome,
    amount: U64,
    claimed: bool,
    winnings: U64,
    betBump: Byte)

  /** The pool a concrete outcome draws from; `Pending` has none. */
  function Pool(m: Market, o: Outcome): U64 {
    match o
    case TeamA => m.totalPoolA
    case TeamB => m.totalPoolB
    case Draw => m.totalPoolDraw
    case Pending => 0
  }

  /** `m` with the pool of `o` set to `v`; nothing else changes. */
  function WithPool(m: Market, o: Outcome, v: U64): (r: Market)
    requires o != Pending
    ensures Pool(r, o) == v
    ensures forall p :: p != o ==> Pool(r, p) == Pool(m, p)
    ensures r.(totalPoolA := m.totalPoolA, totalPoolB := m.totalPoolB, totalPoolDraw := m.totalPoolDraw) == m
  {
    match o
    case TeamA => m.(totalPoolA := v)
    case TeamB => m.(totalPoolB := v)
    case Draw => m.(totalPoolDraw := v)
  }

  /** The fields fixed when the market is created: who runs it, what game, when. */
  predicate SameTerms(m1: Market, m2: Market) {
    && m1.authority == m2.authority
    && m1.gameId == m2.gameId && m1.teamA == m2.teamA && m1.teamB == m2.teamB
    && m1.startTime == m2.startTime && m1.oracleFeed == m2.oracleFeed
    && m1.marketBump == m2.marketBump && m1.vaultBump == m2.vaultBump
  }

  /** The sum of the three pools, as an unbounded integer. */
  function PoolSum(m: Market): nat {
    m.totalPoolA + m.totalPoolB + m.totalPoolDraw
  }

  // ---------------------------------------------------------------------------
  // Space reserved per account.

  const DISCRIMINATOR_LEN: nat := 8
  /** The string budget: a 4-byte length prefix and 60 bytes of text. */
  const STRING_BUDGET: nat := 4 + 60

  /** `Market::LEN`: the field widths added up, discriminator first. */
  const MARKET_LEN: nat :=
    DISCRIMINATOR_LEN + 32 + STRING_BUDGET + STRING_BUDGET + STRING_BUDGET + 8 + 32
    + 8 + 8 + 8 + 1 + 1 + 8 + 8 + 8 + 1 + 1

  /** `Bet::LEN`: the field widths added up, discriminator first. */
  const BET_LEN: nat := DISCRIMINATOR_LEN + 32 + 32 + 1 + 8 + 1 + 8 + 1

  // ---------------------------------------------------------------------------
  // Borsh encoding.

  const U32_LIMIT: nat := 0x1_0000_0000

  function BoolByte(b: bool): Byte {
    if b then 1 else 0
  }

  function BoolFromByte(x: Byte): (r: Option<bool>)
    ensures r.Some? <==> x < 2
    ensures r.Some? ==> BoolByte(r.value) == x
  {
    if x == 0 then Some(false) else if x == 1 then Some(true) else None
  }

  /** A Borsh string: its UTF-8 length as a little-endian `u32`, then the bytes. */
  function StringBytes(s: string): (r: seq<Byte>)
    requires |Utf8.Encode(s)| < U32_LIMIT
    ensures |r| == 4 + |Utf8.Encode(s)|
  {
    var text := Utf8.Encode(s);
    assert Pow256(4) == U32_LIMIT;
    LittleEndian(|text|, 4) + text
  }

  predicate StringsEncodable(m: Market) {
    && |Utf8.Encode(m.gameId)| < U32_LIMIT
    && |Utf8.Encode(m.teamA)| < U32_LIMIT
    && |Utf8.Encode(m.teamB)| < U32_LIMIT
  }

  /** The three strings, in declaration order. */
  function TextFields(m: Market): (r: seq<Byte>)
    requires StringsEncodable(m)
    ensures |r| == 12 + TextBytes(m)
  {
    StringBytes(m.gameId) + StringBytes(m.teamA) + StringBytes(m.teamB)
  }

  /** The fields between the discriminator and `is_resolved`. */
  function MarketBody(m: Market): (r: seq<Byte>)
    requires StringsEncodable(m)
    ensures |r| == FlagsOffset(m) - DISCRIMINATOR_LEN
  {
    m.authority + TextFields(m) + I64Bytes(m.startTime) + m.oracleFeed
    + U64Bytes(m.totalPoolA) + U64Bytes(m.totalPoolB) + U64Bytes(m.totalPoolDraw)
  }

  /** Everything after `winning_outcome`. */
  function MarketTail(m: Market): (r: seq<Byte>)
    ensures |r| == 26
  {
    I64Bytes(m.resolvedAt) + U64Bytes(m.totalPayoutPool) + U64Bytes(m.winningPool)
    + [m.marketBump, m.vaultBump]
  }

  /** Every field, in declaration order, after the discriminator. */
  function MarketFields(m: Market): (r: seq<Byte>)
    requires StringsEncodable(m)
    ensures |r| == 136 + TextBytes(m)
  {
    MarketBody(m) + [BoolByte(m.isResolved), OutcomeTag(m.winningOutcome)] + MarketTail(m)
  }

  /** The serialized market starts with the discriminator and is 144 fixed bytes plus its text. */
  function EncodeMarket(disc: seq<Byte>, m: Market): (r: seq<Byte>)
    requires |disc| == DISCRIMINATOR_LEN && StringsEncodable(m)
    ensures |r| == 144 + TextBytes(m)
    ensures r[..DISCRIMINATOR_LEN] == disc
  {
    disc + MarketFields(m)
  }

  /** Total bytes of the three strings' UTF-8 text. */
  function TextBytes(m: Market): nat {
    |Utf8.Encode(m.gameId)| + |Utf8.Encode(m.teamA)| + |Utf8.Encode(m.teamB)|
  }

  /** Where `is_resolved` sits; `winning_outcome` is the next byte. */
  function FlagsOffset(m: Market): nat {
    DISCRIMINATOR_LEN + 32 + 12 + TextBytes(m) + 8 + 32 + 24
  }

  lemma MarketFieldsFlags(m: Market)
    requires StringsEncodable(m)
    ensures FlagsOffset(m) - DISCRIMINATOR_LEN + 1 < |MarketFields(m)|
    ensures MarketFields(m)[FlagsOffset(m) - DISCRIMINATOR_LEN] == BoolByte(m.isResolved)
    ensures MarketFields(m)[FlagsOffset(m) - DISCRIMINATOR_LEN + 1] == OutcomeTag(m.winningOutcome)
  {
    var body := MarketBody(m);
    var rest := [BoolByte(m.isResolved), OutcomeTag(m.winningOutcome)] + MarketTail(m);
    assert MarketFields(m) == body + rest;
  }

  /** `is_resolved` and `winning_outcome` take one byte each, at `FlagsOffset`. */
  lemma EncodeMarketFlags(disc: seq<Byte>, m: Market)
    requires |disc| == DISCRIMINATOR_LEN && StringsEncodable(m)
    ensures FlagsOffset(m) + 1 < |EncodeMarket(disc, m)|
    ensures EncodeMarket(disc, m)[FlagsOffset(m)] == BoolByte(m.isResolved)
    ensures EncodeMarket(disc, m)[FlagsOffset(m) + 1] == OutcomeTag(m.winningOutcome)
  {
    MarketFieldsFlags(m);
  }

  /** The serialized market fits the `Market::LEN` bytes reserved for it. */
  predicate MarketFits(m: Market) {
    144 + TextBytes(m) <= MARKET_LEN
  }

  /**
   * The space is shared by the three strings: the market fits exactly when
   * their text totals at most 180 bytes, which the 60-bytes-each budget
   * guarantees but does not require.
   */
  lemma MarketFitsIff(m: Market)
    ensures MARKET_LEN == 144 + 3 * 60 == 324
    ensures MarketFits(m) <==> TextBytes(m) <= 3 * 60
    ensures |Utf8.Encode(m.gameId)| <= 60 && |Utf8.Encode(m.teamA)| <= 60 && |Utf8.Encode(m.teamB)| <= 60
            ==> MarketFits(m)
  {
  }

  function EncodeBet(disc: seq<Byte>, b: Bet): (r: seq<Byte>)
    requires |disc| == DISCRIMINATOR_LEN
    ensures |r| == BET_LEN == 91
  {
    disc + b.user + b.market + [OutcomeTag(b.outcome)] + U64Bytes(b.amount)
    + [BoolByte(b.claimed)] + U64Bytes(b.winnings) + [b.betBump]
  }

  /**
   * Reads a bet account: the discriminator must match, and the outcome tag
   * and the `claimed` byte must be valid Borsh values.
   */
  function DecodeBet(disc: seq<Byte>, bs: seq<Byte>): (r: Option<Bet>)
    requires |disc| == DISCRIMINATOR_LEN
    ensures r.Some? <==> |bs| >= BET_LEN && bs[..DISCRIMINATOR_LEN] == disc && bs[72] < 4 && bs[81] < 2
  {
    if |bs| < BET_LEN || bs[..DISCRIMINATOR_LEN] != disc then None
    else
      match (OutcomeFromTag(bs[72]), BoolFromByte(bs[81]))
      case (Some(outcome), Some(claimed)) =>
        Some(Bet(bs[8..40], bs[40..72], outcome, U64FromBytes(bs[73..81]), claimed,
                 U64FromBytes(bs[82..90]), bs[90]))
      case _ => None
  }

  lemma {:induction false} DecodeEncodeBet(disc: seq<Byte>, b: Bet)
    requires |disc| == DISCRIMINATOR_LEN
    ensures DecodeBet(disc, EncodeBet(disc, b)) == Some(b)
  {
    BetLayout(disc, b);
    U64RoundTrip(b.amount);
    U64RoundTrip(b.winnings);
    OutcomeTagRoundTrip(b.outcome);
  }

  /** Where each field of a bet sits in its encoding. */
  lemma BetLayout(disc: seq<Byte>, b: Bet)
    requires |disc| == DISCRIMINATOR_LEN
    ensures var e := EncodeBet(disc, b);
      && e[..8] == disc && e[8..40] == b.user && e[40..72] == b.market
      && e[72] == OutcomeTag(b.outcome) && e[73..81] == U64Bytes(b.amount)
      && e[81] == BoolByte(b.claimed) && e[82..90] == U64Bytes(b.winnings) && e[90] == b.betBump
  {
    BetLayoutHead(disc, b);
    BetLayoutTail(disc, b);
  }

  lemma BetLayoutHead(disc: seq<Byte>, b: Bet)
    requires |disc| == DISCRIMINATOR_LEN
    ensures var e := EncodeBet(disc, b);
      e[..8] == disc && e[8..40] == b.user && e[40..72] == b.market && e[72] == OutcomeTag(b.outcome)
  {
    var p1 := disc + b.user;
    var p2 := p1 + b.market;
    var p3 := p2 + [OutcomeTag(b.outcome)];
    var e := EncodeBet(disc, b);
    assert e[..73] == p3;
    assert e[..72] == p2 by { assert p3[..72] == p2; }
    assert e[..40] == p1 by { assert p2[..40] == p1; }
  }

  lemma BetLayoutTail(disc: seq<Byte>, b: Bet)
    requires |disc| == DISCRIMINATOR_LEN
    ensures var e := EncodeBet(disc, b);
      e[73..81] == U64Bytes(b.amount) && e[81] == BoolByte(b.claimed)
      && e[82..90] == U64Bytes(b.winnings) && e[90] == b.betBump
  {
    var p3 := disc + b.user + b.market + [OutcomeTag(b.outcome)];
    var p4 := p3 + U64Bytes(b.amount);
    var p5 := p4 + [BoolByte(b.claimed)];
    var p6 := p5 + U64Bytes(b.winnings);
    var e := EncodeBet(disc, b);
    assert e == p6 + [b.betBump];
    assert e[..90] == p6;
    assert e[..82] == p5 by { assert p6[..82] == p5; }
    assert e[..81] == p4 by { assert p5[..81] == p4; }
  }

  /** Whatever decodes as a bet is exactly that bet's encoding (plus any slack). */
  lemma {:induction false} EncodeDecodeBet(disc: seq<Byte>, bs: seq<Byte>)
    requires |disc| == DISCRIMINATOR_LEN
    requires DecodeBet(disc, bs).Some?
    ensures EncodeBet(disc, DecodeBet(disc, bs).value) == bs[..BET_LEN]
  {
    var b := DecodeBet(disc, bs).value;
    DecodedBetHead(disc, bs);
    DecodedBetTail(disc, bs);
    var head := disc + b.user + b.market + [OutcomeTag(b.outcome)];
    SliceConcat(bs, 73, 81);
    SliceConcat(bs, 81, 82);
    SliceConcat(bs, 82, 90);
    SliceConcat(bs, 90, BET_LEN);
    assert head + U64Bytes(b.amount) == bs[..81];
    assert head + U64Bytes(b.amount) + [BoolByte(b.claimed)] == bs[..82];
    assert head + U64Bytes(b.amount) + [BoolByte(b.claimed)] + U64Bytes(b.winnings) == bs[..90];
  }

  lemma SliceConcat(s: seq<Byte>, i: nat, j: nat)
    requires i <= j <= |s|
    ensures s[..j] == s[..i] + s[i..j]
  {
  }

  /** The last four fields of a decoded bet re-encode to bytes 73 to 90. */
  lemma DecodedBetTail(disc: seq<Byte>, bs: seq<Byte>)
    requires |disc| == DISCRIMINATOR_LEN
    requires DecodeBet(disc, bs).Some?
    ensures var b := DecodeBet(disc, bs).value;
      && U64Bytes(b.amount) == bs[73..81]
      && [BoolByte(b.claimed)] == bs[81..82]
      && U64Bytes(b.winnings) == bs[82..90]
      && [b.betBump] == bs[90..BET_LEN]
  {
    var b := DecodeBet(disc, bs).value;
    assert BoolByte(b.claimed) == bs[81] && b.betBump == bs[90];
    assert bs[81..82] == [bs[81]] && bs[90..BET_LEN] == [bs[90]];
    U64BytesRoundTrip(bs[73..81]);
    U64BytesRoundTrip(bs[82..90]);
  }

  /** The first four fields of a decoded bet re-encode to the first 73 bytes. */
  lemma DecodedBetHead(disc: seq<Byte>, bs: seq<Byte>)
    requires |disc| == DISCRIMINATOR_LEN
    requires DecodeBet(disc, bs).Some?
    ensures var b := DecodeBet(disc, bs).value;
      disc + b.user + b.market + [OutcomeTag(b.outcome)] == bs[..73]
  {
    var b := DecodeBet(disc, bs).value;
    OutcomeTagRoundTrip(b.outcome);
    var p := disc + b.user;
    assert p == bs[..40];
    p := p + b.market;
    assert p == bs[..72];
    p := p + [OutcomeTag(b.outcome)];
    assert p == bs[..73];
  }

  /** A freshly allocated bet account holds zeros, which read as this bet. */
  const ZeroBet: Bet := Bet(ZeroKey, ZeroKey, Pending, 0, false, 0, 0)

  lemma {:induction false} ZeroedAccountIsZeroBet(disc: seq<Byte>)
    requires |disc| == DISCRIMINATOR_LEN
    ensures DecodeBet(disc, disc + seq(BET_LEN - DISCRIMINATOR_LEN, _ => 0 as Byte)) == Some(ZeroBet)
  {
    var zeros := seq(BET_LEN - DISCRIMINATOR_LEN, _ => 0 as Byte);
    var bs := disc + zeros;
    assert bs[..8] == disc;
    assert bs[8..40] == ZeroKey && bs[40..72] == ZeroKey;
    assert bs[72] == 0 && bs[81] == 0 && bs[90] == 0;
    ZeroBytesReadAsZero(bs[73..81]);
    ZeroBytesReadAsZero(bs[82..90]);
  }

  lemma {:induction false} ZeroBytesReadAsZero(s: seq<Byte>)
    requires forall i :: 0 <= i < |s| ==> s[i] == 0
    ensures FromLittleEndian(s) == 0
  {
    if s != [] {
      ZeroBytesReadAsZero(s[1..]);
    }
  }
}
