/**
 * The `Outcome` enum shared by markets and bets, its one-byte Borsh tag,
 * and the event records each instruction emits.
 */
module Events {
  import opened Numeric
  import opened Keys
  import opened Wrappers

  /** Declared in this order; equality is structural. */
  datatype Outcome = Pending | TeamA | TeamB | Draw

  /** Borsh writes the declaration index of the variant as one byte. */
  function OutcomeTag(o: Outcome): (tag: Byte)
    ensures tag < 4
    ensures o == Pending <==> tag == 0
  {
    match o
    case Pending => 0
    case TeamA => 1
    case TeamB => 2
    case Draw => 3
  }

  /** Borsh decoding of the tag; any byte past the last variant is rejected. */
  function OutcomeFromTag(tag: Byte): (r: Option<Outcome>)
    ensures r.Some? <==> tag < 4
    ensures r.Some? ==> OutcomeTag(r.value) == tag
  {
    if tag == 0 then Some(Pending)
    else if tag == 1 then Some(TeamA)
    else if tag == 2 then Some(TeamB)
    else if tag == 3 then Some(Draw)
    else None
  }

  lemma OutcomeTagRoundTrip(o: Outcome)
    ensures OutcomeFromTag(OutcomeTag(o)) == Some(o)
  {
  }

  /** The tag is injective, so the wire encoding distinguishes all four outcomes. */
  lemma OutcomeTagInjective(o1: Outcome, o2: Outcome)
    ensures OutcomeTag(o1) == OutcomeTag(o2) <==> o1 == o2
  {
    OutcomeTagRoundTrip(o1);
    OutcomeTagRoundTrip(o2);
  }

  datatype MarketCreated = MarketCreated(market: Pubkey, gameId: string, startTime: I64)

  datatype BetPlaced = BetPlaced(user: Pubkey, market: Pubkey, outcome: Outcome, amount: U64)

  datatype MarketResolved = MarketResolved(market: Pubkey, winningOutcome: Outcome, totalPool: U64)

  datatype WinningsClaimed = WinningsClaimed(user: Pubkey, market: Pubkey, amount: U64)

  datatype BetCancelled = BetCancelled(user: Pubkey, market: Pubkey, refund: U64)
}
