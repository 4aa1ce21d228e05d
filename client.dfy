/**
 * The web client's helpers: its string form of an outcome and the mapping
 * to the program's `Outcome`, and the seed lists it hands to the address
 * derivation. The client holds addresses as their base58 text (`Address`)
 * and turns text into seed bytes with UTF-8, so its vault and bet seeds
 * carry the text of an address where the program uses its raw 32 bytes.
 * The derivation refuses a seed longer than 32 bytes, and the text of a key
 * is longer than that unless the key starts with many zero bytes, so the
 * vault and bet helpers fail for almost every real address; where they do
 * return, they derive from another seed list than the program.
 */
module Client {
  import opened Numeric
  import opened Keys
  import opened Events
  import opened Wrappers
  import Utf8
  import Seeds

  /** The client's string enum values for the four outcomes; each maps back to the outcome it names. */
  function OutcomeName(o: Outcome): (r: string)
    ensures OutcomeToContract(r) == o
  {
    match o
    case Pending => "pending"
    case TeamA => "teamA"
    case TeamB => "teamB"
    case Draw => "draw"
  }

  /** `outcomeToContract`: unknown text falls through to `Pending`. */
  function OutcomeToContract(s: string): (r: Outcome)
    ensures r == TeamA <==> s == "teamA"
    ensures r == TeamB <==> s == "teamB"
    ensures r == Draw <==> s == "draw"
    ensures r == Pending <==> s != "teamA" && s != "teamB" && s != "draw"
  {
    if s == "teamA" then TeamA
    else if s == "teamB" then TeamB
    else if s == "draw" then Draw
    else Pending
  }

  /** An address in the client: base58 text. */
  type Address = string

  /** The base58 digits: 1-9, A-Z without I and O, a-z without l. */
  predicate IsBase58Char(c: char) {
    || ('1' <= c <= '9')
    || ('A' <= c <= 'H') || ('J' <= c <= 'N') || ('P' <= c <= 'Z')
    || ('a' <= c <= 'k') || ('m' <= c <= 'z')
  }

  predicate IsBase58Text(t: Address) {
    forall i :: 0 <= i < |t| ==> IsBase58Char(t[i])
  }

  /** A byte that is the character code of some base58 digit. */
  predicate IsBase58Byte(b: Byte) {
    IsBase58Char((b as int) as char)
  }

  /** `getMarketPDA`'s seeds `["market", Buffer.from(gameId)]`: the same list as the program's. */
  function MarketSeeds(gameId: string): (r: Seeds.Seeds)
    ensures r == Seeds.MarketSeeds(gameId)
  {
    TagBytes();
    [Utf8.Encode("market"), Utf8.Encode(gameId)]
  }

  /** `getVaultPDA`'s seeds `["vault", Buffer.from(marketAddress)]`, acceptable only for short text. */
  function VaultSeeds(market: Address): (r: Seeds.Seeds)
    ensures r == [Seeds.VAULT_TAG, Utf8.Encode(market)]
    ensures Seeds.SeedsAccepted(r) <==> |Utf8.Encode(market)| <= Seeds.MAX_SEED_LEN
  {
    TagBytes();
    var r := [Utf8.Encode("vault"), Utf8.Encode(market)];
    assert r[1] == Utf8.Encode(market);
    r
  }

  /** `getBetPDA`'s seeds `["bet", Buffer.from(marketAddress), Buffer.from(userAddress)]`. */
  function BetSeeds(market: Address, user: Address): (r: Seeds.Seeds)
    ensures r == [Seeds.BET_TAG, Utf8.Encode(market), Utf8.Encode(user)]
    ensures Seeds.SeedsAccepted(r)
            <==> |Utf8.Encode(market)| <= Seeds.MAX_SEED_LEN && |Utf8.Encode(user)| <= Seeds.MAX_SEED_LEN
  {
    TagBytes();
    var r := [Utf8.Encode("bet"), Utf8.Encode(market), Utf8.Encode(user)];
    assert r[1] == Utf8.Encode(market) && r[2] == Utf8.Encode(user);
    r
  }

  /** `getProgramDerivedAddress`: throws on seeds the runtime would refuse. */
  function Derived(derive: Seeds.Derive, program: Pubkey, seeds: Seeds.Seeds): Option<Pubkey> {
    if Seeds.SeedsAccepted(seeds) then Some(Seeds.Address(derive, program, seeds)) else None
  }

  /** `getMarketPDA`: the program's market address, whenever the program could create that market. */
  function GetMarketPda(derive: Seeds.Derive, program: Pubkey, gameId: string): (r: Option<Pubkey>)
    ensures r.Some? <==> |Utf8.Encode(gameId)| <= Seeds.MAX_SEED_LEN
    ensures r.Some? ==> r.value == Seeds.Address(derive, program, Seeds.MarketSeeds(gameId))
  {
    Derived(derive, program, MarketSeeds(gameId))
  }

  /** `getVaultPDA`: fails unless the address text fits one seed. */
  function GetVaultPda(derive: Seeds.Derive, program: Pubkey, market: Address): (r: Option<Pubkey>)
    ensures r.Some? <==> |Utf8.Encode(market)| <= Seeds.MAX_SEED_LEN
    ensures r.Some? ==> r.value == Seeds.Address(derive, program, VaultSeeds(market))
  {
    Derived(derive, program, VaultSeeds(market))
  }

  /** `getBetPDA`: fails unless both address texts fit one seed each. */
  function GetBetPda(derive: Seeds.Derive, program: Pubkey, market: Address, user: Address): (r: Option<Pubkey>)
    ensures r.Some? <==> |Utf8.Encode(market)| <= Seeds.MAX_SEED_LEN && |Utf8.Encode(user)| <= Seeds.MAX_SEED_LEN
    ensures r.Some? ==> r.value == Seeds.Address(derive, program, BetSeeds(market, user))
  {
    Derived(derive, program, BetSeeds(market, user))
  }

  /**
   * Base58 text is one byte per character, so the vault and bet helpers
   * fail exactly when an address text is longer than 32 characters, as the
   * text of a key is unless the key starts with many zero bytes.
   */
  lemma AddressPdaDefinedIff(derive: Seeds.Derive, program: Pubkey, market: Address, user: Address)
    requires IsBase58Text(market) && IsBase58Text(user)
    ensures GetVaultPda(derive, program, market).None? <==> |market| > Seeds.MAX_SEED_LEN
    ensures GetBetPda(derive, program, market, user).None?
            <==> |market| > Seeds.MAX_SEED_LEN || |user| > Seeds.MAX_SEED_LEN
  {
    Base58IsAscii(market);
    Base58IsAscii(user);
    Utf8.EncodeAscii(market);
    Utf8.EncodeAscii(user);
  }

  /** The text of the all-zero key, returned as a placeholder. */
  const SYSTEM_PROGRAM: Address := "11111111111111111111111111111111"

  /** `getAssociatedTokenAddress`: a placeholder that ignores both arguments, the text of the zero key. */
  function GetAssociatedTokenAddress(mint: Address, owner: Address): (r: Address)
    ensures IsBase58Text(r) && |r| == KEY_LEN
    ensures forall i :: 0 <= i < |r| ==> r[i] == '1'
  {
    SYSTEM_PROGRAM
  }

  lemma AssociatedTokenAddressIgnoresInputs(mint: Address, owner: Address, mint': Address, owner': Address)
    ensures GetAssociatedTokenAddress(mint, owner) == GetAssociatedTokenAddress(mint', owner')
    ensures IsBase58Text(GetAssociatedTokenAddress(mint, owner))
  {
  }

  lemma TagBytes()
    ensures Utf8.Encode("market") == Seeds.MARKET_TAG
    ensures Utf8.Encode("vault") == Seeds.VAULT_TAG
    ensures Utf8.Encode("bet") == Seeds.BET_TAG
  {
    Utf8.EncodeAscii("market");
    Utf8.EncodeAscii("vault");
    Utf8.EncodeAscii("bet");
  }

  lemma Base58IsAscii(t: Address)
    requires IsBase58Text(t)
    ensures Utf8.IsAscii(t)
  {
  }

  /** The UTF-8 bytes of base58 text are all character codes of base58 digits. */
  lemma TextBytesAreDigits(t: Address)
    requires IsBase58Text(t)
    ensures forall i :: 0 <= i < |Utf8.Encode(t)| ==> IsBase58Byte(Utf8.Encode(t)[i])
  {
    Base58IsAscii(t);
    Utf8.EncodeAscii(t);
    forall i | 0 <= i < |Utf8.Encode(t)| ensures IsBase58Byte(Utf8.Encode(t)[i]) {
      assert (Utf8.Encode(t)[i] as int) as char == t[i];
    }
  }

  /** Text bytes differ from a key that holds a byte which is no base58 digit. */
  lemma TextBytesDifferFromKey(text: Address, key: Pubkey, j: nat)
    requires IsBase58Text(text)
    requires j < |key| && !IsBase58Byte(key[j])
    ensures Utf8.Encode(text) != key
  {
    TextBytesAreDigits(text);
    if j < |Utf8.Encode(text)| {
      assert Utf8.Encode(text)[j] != key[j];
    }
  }

  /**
   * Wherever the program's vault seeds for a key hold a byte that is not a
   * base58 digit, the client's seeds built from an address text differ from
   * them: where the client derives a vault address at all, it derives it
   * from another seed list than the program does.
   */
  lemma VaultSeedsDisagree(text: Address, key: Pubkey, j: nat)
    requires IsBase58Text(text)
    requires j < |key| && !IsBase58Byte(key[j])
    ensures VaultSeeds(text) != Seeds.VaultSeeds(key)
  {
    TextBytesDifferFromKey(text, key, j);
    assert VaultSeeds(text)[1] != Seeds.VaultSeeds(key)[1];
  }

  /** The same disagreement for the bet seeds, through the market or the user. */
  lemma BetSeedsDisagree(market: Address, user: Address, marketKey: Pubkey, userKey: Pubkey, j: nat)
    requires IsBase58Text(market) && IsBase58Text(user)
    requires j < KEY_LEN && (!IsBase58Byte(marketKey[j]) || !IsBase58Byte(userKey[j]))
    ensures BetSeeds(market, user) != Seeds.BetSeeds(marketKey, userKey)
  {
    if !IsBase58Byte(marketKey[j]) {
      TextBytesDifferFromKey(market, marketKey, j);
      assert BetSeeds(market, user)[1] != Seeds.BetSeeds(marketKey, userKey)[1];
    } else {
      TextBytesDifferFromKey(user, userKey, j);
      assert BetSeeds(market, user)[2] != Seeds.BetSeeds(marketKey, userKey)[2];
    }
  }

  /** For instance, the zero key: its text is "111...1", whose bytes are 0x31, not 0x00. */
  lemma ZeroKeyVaultSeedsDisagree()
    ensures VaultSeeds(SYSTEM_PROGRAM) != Seeds.VaultSeeds(ZeroKey)
  {
    assert IsBase58Text(SYSTEM_PROGRAM);
    assert ZeroKey[0] == 0;
    VaultSeedsDisagree(SYSTEM_PROGRAM, ZeroKey, 0);
  }
}
