# Sports betting program, modelled in Dafny

This project models the on-chain sports betting program `sportsbet-encode`
and the small client helper module that derives its addresses.

**Accounts.** A *market* is one game between team A and team B. It holds:
- three `u64` pools, one per outcome (team A, team B, draw);
- a start time;
- the authority that may resolve it.

A *vault* is a token account that the market owns. Each user has one *bet*
account per market, at the address derived from the seeds
`["bet", market, user]`.

**Instructions.** The program has five:

- `create_market`: creates the market at the address derived from
  `["market", game_id]` and the vault at `["vault", market]`. The pools start
  empty and nothing is resolved.
- `place_bet`: before the start, moves tokens from the user into the vault.
  Adds them to the user's bet and to the pool of the chosen outcome.
- `resolve_market`: the authority names the winner, more than three hours
  after the start. Records the total of the pools and the winning pool.
- `claim_winnings`: pays a winning bet `floor(stake * total / winning)`,
  computed in `u128`, less a 2% fee rounded down. Marks the bet claimed.
- `cancel_bet`: until an hour before the start, the bettor takes the stake
  back and it leaves its pool.

**Layout.** Each instruction is modelled twice:

- A function from the accounts on entry to a `Result`. It carries the full
  contract: every error code in the order the checks run, and every field of
  every account afterwards.
- A `Handler` method. It updates `Account<T>` objects field by field, as the
  Rust handler does. Its postcondition ties it to the function.

The module `Sportsbook` puts one market, its vault and any number of users
into a `Book`. A call that fails leaves the book as it was, as the runtime
does with a failed transaction. The module proves three things about the
instructions together:

- Tokens are conserved under any history.
- The market and claimed bets are frozen after resolution.
- Under corrected rules there is an accounting invariant:
  - each pool equals what the bets on its outcome hold;
  - before resolution the vault holds exactly the pools;
  - after resolution the vault holds every share still owed.
  From this invariant, every unclaimed winning bet with a stake can always
  be claimed by its bettor, as long as twice the total payout pool fits in
  a `u64` (the fee's `checked_mul(2)` fails otherwise). Every bet can always
  be cancelled in time.

Two concrete histories show the invariant failing under the rules as written
(see Findings).

**Modules.**

| module | file |
|---|---|
| `Numeric` | `numeric.dfy` |
| `Keys` | `keys.dfy` |
| `Wrappers` | `wrappers.dfy` |
| `Errors` | `errors.dfy` |
| `Events` | `events.dfy` |
| `Utf8` | `utf8.dfy` |
| `Seeds` | `seeds.dfy` |
| `Accounts` | `accounts.dfy` |
| `Token` | `token.dfy` |
| `State` | `state.dfy` |
| `CreateMarket` | `create_market.dfy` |
| `PlaceBet` | `place_bet.dfy` |
| `ResolveMarket` | `resolve_market.dfy` |
| `ClaimWinnings` | `claim_winnings.dfy` |
| `CancelBet` | `cancel_bet.dfy` |
| `Client` | `client.dfy` |
| `Sportsbook` | `book.dfy` |

**Where the model follows the code against the design notes.**

- Bet accounts are created with `init_if_needed`. A second bet by the same
  user on the same market is therefore not refused as an already-used
  address: it adds to the existing bet.
- The client derives the vault and bet addresses from
  `Buffer.from(address)`. That is the UTF-8 text of the base58 address, not
  its 32 raw bytes. The derivation refuses a seed longer than 32 bytes, and
  the text of a key is 43 or 44 characters unless the key starts with many
  zero bytes. So `getVaultPDA` and `getBetPDA` throw for almost every real
  address (`Client.AddressPdaDefinedIff`). Where they do return, they derive
  from another seed list than the program (`Client.VaultSeedsDisagree`,
  `Client.BetSeedsDisagree`).

**Program id.** The client's default program id
(`app/src/lib/constants.ts:4-7`) differs from the id the program declares
(`programs/sportsbet-encode/src/lib.rs:3`). Program ids are parameters here,
so the model does not depend on either value.

## Model

| member | source | states |
|---|---|---|
| `Numeric.CheckedAdd` | programs/sportsbet-encode/src/instructions/place_bet.rs:76 | `checked_add` gives a value exactly when the sum fits in `u64`, and then it is the sum |
| `Numeric.CheckedSub` | programs/sportsbet-encode/src/instructions/cancel_bet.rs:51-53 | `checked_sub` gives a value exactly when it does not go below zero, and then it restores the minuend |
| `Numeric.CheckedMul` | programs/sportsbet-encode/src/instructions/claim_winnings.rs:66-68 | `checked_mul` gives a value exactly when the product fits in `u64` |
| `Numeric.WideProductFits` | programs/sportsbet-encode/src/instructions/claim_winnings.rs:59-61 | the product of two `u64` values always fits in `u128`, so the payout's `checked_mul` never fails |
| `Numeric.TruncateU64` | programs/sportsbet-encode/src/instructions/claim_winnings.rs:63 | `as u64` keeps a value within range and otherwise wraps it modulo 2^64 |
| `Numeric.U64RoundTrip` | programs/sportsbet-encode/src/state/bet.rs:9-11 | reading back the 8 little-endian bytes of a `u64` field gives the value |
| `Numeric.U64BytesRoundTrip` | programs/sportsbet-encode/src/state/bet.rs:9-11 | any 8 bytes are the encoding of the `u64` they decode to |
| `Numeric.I64RoundTrip` | programs/sportsbet-encode/src/state/market.rs:10-17 | an `i64` field (start time, resolution time) reads back as written, in two's complement |
| `Events.OutcomeTag` | programs/sportsbet-encode/src/events.rs:4-9 | the Borsh tag is the declaration index, below 4, and 0 exactly for `Pending` |
| `Events.OutcomeFromTag` | programs/sportsbet-encode/src/events.rs:4-9 | a tag byte decodes exactly when it is below 4, to the variant with that tag |
| `Events.OutcomeTagRoundTrip` | programs/sportsbet-encode/src/events.rs:3-9 | decoding an outcome's tag gives back the outcome |
| `Events.OutcomeTagInjective` | programs/sportsbet-encode/src/events.rs:3 | two outcomes have the same tag exactly when they are equal |
| `Utf8.EncodeChar` | programs/sportsbet-encode/src/instructions/create_market.rs:13 | a character takes 1 to 4 bytes, one byte exactly for ASCII, equal to its code |
| `Utf8.Encode` | programs/sportsbet-encode/src/instructions/create_market.rs:13 | `as_bytes` never has fewer bytes than characters |
| `Utf8.DecodeChar` | programs/sportsbet-encode/src/state/market.rs:7-9 | what `from_utf8` reads is exactly the one encoding of the character read: overlong forms and surrogates are refused |
| `Utf8.NonMinimalRefused` | programs/sportsbet-encode/src/state/market.rs:7-9 | the overlong forms of U+0000 in two, three and four bytes, and an encoded surrogate, do not decode |
| `Utf8.DecodeEncodeChar` | programs/sportsbet-encode/src/state/market.rs:7-9 | a character's bytes decode back to it, whatever follows |
| `Utf8.DecodeEncode` | programs/sportsbet-encode/src/state/market.rs:7-9 | a stored string reads back as written |
| `Utf8.EncodeInjective` | programs/sportsbet-encode/src/instructions/create_market.rs:13 | distinct strings have distinct bytes |
| `Utf8.EncodeAscii` | app/src/lib/program.ts:37 | ASCII text encodes one byte per character, each its code |
| `Seeds.SeedsAccepted` | programs/sportsbet-encode/src/instructions/create_market.rs:13 | the runtime derives from at most 15 seeds (the bump is the 16th) of at most 32 bytes each |
| `Seeds.MarketSeeds` | programs/sportsbet-encode/src/instructions/create_market.rs:13 | the market seeds are accepted exactly when the game id is at most 32 bytes |
| `Seeds.VaultSeeds` | programs/sportsbet-encode/src/instructions/create_market.rs:21 | vault seeds built from a 32-byte key are always accepted |
| `Seeds.BetSeeds` | programs/sportsbet-encode/src/instructions/place_bet.rs:13 | bet seeds built from two keys are always accepted |
| `Seeds.MarketSeedsInjective` | programs/sportsbet-encode/src/instructions/create_market.rs:9-15 | two game ids share market seeds exactly when they are equal |
| `Seeds.BetSeedsInjective` | programs/sportsbet-encode/src/instructions/place_bet.rs:9-15 | the bet seeds name exactly one (market, user) pair |
| `Seeds.SeedFamiliesDisjoint` | programs/sportsbet-encode/src/instructions/create_market.rs:13-21 | market, vault and bet seed lists never coincide |
| `Accounts.Account.constructor` | programs/sportsbet-encode/src/instructions/place_bet.rs:16-28 | an account handed to an instruction has the given address and data |
| `Token.Transfer` | programs/sportsbet-encode/src/instructions/place_bet.rs:59-69 | a transfer succeeds exactly when the source has the funds, its owner signs and the destination does not overflow; it fails with `InsufficientFunds`, then `OwnerMismatch`; both balances move by the amount and owners stay |
| `Token.TransferConserves` | programs/sportsbet-encode/src/instructions/place_bet.rs:59-69 | a transfer keeps the sum of the two balances |
| `Token.TransferCpi` | programs/sportsbet-encode/src/instructions/claim_winnings.rs:84-95 | the call updates both accounts as `Transfer` says, or neither |
| `State.WithPool` | programs/sportsbet-encode/src/instructions/place_bet.rs:82-99 | setting one outcome's pool changes only that pool |
| `State.BoolFromByte` | programs/sportsbet-encode/src/state/bet.rs:10 | a Borsh `bool` byte is valid exactly when it is 0 or 1, and round-trips |
| `State.StringBytes` | programs/sportsbet-encode/src/state/market.rs:7-9 | a Borsh string is a 4-byte length plus its UTF-8 bytes |
| `State.MarketFields` | programs/sportsbet-encode/src/state/market.rs:5-21 | the market's fields take 136 bytes plus the text of its three strings |
| `State.EncodeMarket` | programs/sportsbet-encode/src/state/market.rs:25-41 | a serialized market is the discriminator then 136 bytes plus its text |
| `State.EncodeMarketFlags` | programs/sportsbet-encode/src/state/market.rs:35-36 | `is_resolved` and `winning_outcome` take one byte each, side by side |
| `State.MarketFitsIff` | programs/sportsbet-encode/src/state/market.rs:25-41 | `Market::LEN` is 324; a market fits exactly when its strings total at most 180 bytes, which 60 bytes each guarantees |
| `State.EncodeBet` | programs/sportsbet-encode/src/state/bet.rs:16-23 | a serialized bet is exactly `Bet::LEN` = 91 bytes |
| `State.BetLayout` | programs/sportsbet-encode/src/state/bet.rs:4-23 | each field of a serialized bet sits at its offset: user and market 32 bytes each, outcome and claimed one byte each, amounts 8 bytes |
| `State.DecodeEncodeBet` | programs/sportsbet-encode/src/state/bet.rs:4-13 | a serialized bet reads back as written |
| `State.DecodeBet` | programs/sportsbet-encode/src/state/bet.rs:4-13 | a bet account is readable exactly when it has at least 91 bytes, starts with the discriminator, and holds a valid outcome tag and `claimed` byte |
| `State.EncodeDecodeBet` | programs/sportsbet-encode/src/state/bet.rs:4-13 | every readable bet account is the serialization of the bet read from it |
| `State.ZeroedAccountIsZeroBet` | programs/sportsbet-encode/src/instructions/place_bet.rs:9-10 | a freshly created (zeroed) bet account reads as the empty bet on `Pending` |
| `CreateMarket.NewMarket` | programs/sportsbet-encode/src/instructions/create_market.rs:46-61 | the new market copies the arguments, has empty pools, is unresolved on `Pending`, with zero resolution time and snapshots |
| `CreateMarket.Create` | programs/sportsbet-encode/src/instructions/create_market.rs:9-67 | creation fails with `MaxSeedLengthExceeded` on a too-long game id, then `AccountAlreadyInUse` on an address in use, then `AccountDidNotSerialize` when the market does not fit; it succeeds exactly when the seeds are valid, both addresses free and the market fits; the market and vault sit at their derived addresses and the vault belongs to the market |
| `CreateMarket.CreateOnce` | programs/sportsbet-encode/src/instructions/create_market.rs:9-15 | a second market for the same game id fails, whatever the other arguments |
| `CreateMarket.CreateSucceeds` | programs/sportsbet-encode/src/instructions/create_market.rs:9-26 | with a game id of at most 32 bytes, team names of at most 60 bytes and free addresses, creation succeeds |
| `CreateMarket.Handler` | programs/sportsbet-encode/src/instructions/create_market.rs:36-70 | the field assignments leave exactly `NewMarket` in the account, and the event names the market, game id and start time |
| `PlaceBet.Place` | programs/sportsbet-encode/src/instructions/place_bet.rs:34-109 | `MarketClosed` unless before the start, `MarketResolved`, `InvalidOutcome` for `Pending`, the transfer's error, `Overflow` for the bet or pool sum; on success only the chosen pool grows, by the amount, the bet is the signer's on this market with the summed stake, the tokens move to the vault, and the event carries the amount |
| `PlaceBet.PlaceRelabelsStake` | programs/sportsbet-encode/src/instructions/place_bet.rs:75-76 | a bet on the other side re-labels the earlier stake, which stays in the old pool |
| `PlaceBet.PlaceIgnoresVaultOwner` | programs/sportsbet-encode/src/instructions/place_bet.rs:21-22 | whether a bet goes through, and what it does to the pools, does not depend on who owns the vault account |
| `PlaceBet.PlaceChecked` | programs/sportsbet-encode/src/instructions/place_bet.rs:18-79 | the corrected instruction fails unless the vault is the market's and a held stake stays on its outcome, and otherwise behaves as `Place` |
| `PlaceBet.Handler` | programs/sportsbet-encode/src/instructions/place_bet.rs:34-109 | the handler's field updates give `Place`'s result on every path |
| `ResolveMarket.Resolve` | programs/sportsbet-encode/src/instructions/resolve_market.rs:8-63 | `Unauthorized` unless the authority signs, `ArithmeticOverflow` when `start_time + 10800` overflows, `GameNotComplete` until more than three hours after the start, `AlreadyResolved`, `InvalidOutcome` for `Pending`, `ArithmeticOverflow` when the pool sum overflows; on success it records winner and time, snapshots the pool sum and the winning pool, leaves pools and terms as they were, and the event carries the total |
| `ResolveMarket.ResolveOnce` | programs/sportsbet-encode/src/instructions/resolve_market.rs:30-33 | a resolved market refuses every further resolution |
| `ResolveMarket.Handler` | programs/sportsbet-encode/src/instructions/resolve_market.rs:17-66 | the handler's field updates give `Resolve`'s result on every path |
| `ClaimWinnings.Share` | programs/sportsbet-encode/src/instructions/claim_winnings.rs:59-63 | for a stake within the winning pool the share is exactly the floor of its proportion of the total: `share * winning <= stake * total` and `stake * total - share * winning < winning`, and at most the total |
| `ClaimWinnings.ShareWithinTotal` | programs/sportsbet-encode/src/instructions/claim_winnings.rs:59-63 | the quotient is the floor of the proportion and at most the total, so `as u64` keeps it intact |
| `ClaimWinnings.ComputePayout` | programs/sportsbet-encode/src/instructions/claim_winnings.rs:50-74 | the payout fails (`Overflow`) exactly on an empty winning pool or a share above half of `u64`; fee plus winnings equal the share and the winnings keep at least 98% of it |
| `ClaimWinnings.FeeRounding` | programs/sportsbet-encode/src/instructions/claim_winnings.rs:66-74 | the fee rounded down is at most the share and leaves at least 98% of it, less than a unit more |
| `ClaimWinnings.Claim` | programs/sportsbet-encode/src/instructions/claim_winnings.rs:12-104 | `InvalidMarket`, `MarketNotResolved`, `AlreadyClaimed`, `NotWinner`, `NoWinningPool`, `Overflow`, then the transfer's error, in that order; on success the bet is marked claimed with its winnings, the vault pays exactly them, and the event carries them |
| `ClaimWinnings.ClaimOnce` | programs/sportsbet-encode/src/instructions/claim_winnings.rs:38-41 | a claimed bet cannot be claimed again, by anyone |
| `ClaimWinnings.ClaimIgnoresSigner` | programs/sportsbet-encode/src/instructions/claim_winnings.rs:20-24 | any signer can claim someone else's winning bet into their own account |
| `ClaimWinnings.ClaimOwned` | programs/sportsbet-encode/src/instructions/claim_winnings.rs:20-21 | the corrected claim fails with `Unauthorized` unless the bettor signs, and otherwise behaves as `Claim` |
| `ClaimWinnings.Handler` | programs/sportsbet-encode/src/instructions/claim_winnings.rs:29-107 | the handler's updates give `Claim`'s result on every path; the market is only read |
| `CancelBet.Cancel` | programs/sportsbet-encode/src/instructions/cancel_bet.rs:9-97 | `Unauthorized` unless the bettor signs, `ArithmeticOverflow` when `start_time - 3600` overflows, `TooLateToCanel` from an hour before the start, `MarketResolved`, `InvalidOutcome` for `Pending`, `Underflow`, then the transfer's error; on success the stake leaves its pool only, the whole stake is refunded, the bet is zeroed and marked claimed, and the event carries the refund |
| `CancelBet.CancelTwice` | programs/sportsbet-encode/src/instructions/cancel_bet.rs:89-91 | a second cancel refunds nothing and changes no pool or balance |
| `CancelBet.CancelUndoesPlace` | programs/sportsbet-encode/src/instructions/cancel_bet.rs:45-66 | cancelling a first bet in time restores the market and both balances |
| `CancelBet.CancelIgnoresBetMarket` | programs/sportsbet-encode/src/instructions/cancel_bet.rs:15-16 | whether a cancel goes through does not depend on which market the bet belongs to |
| `CancelBet.CancelLinked` | programs/sportsbet-encode/src/instructions/cancel_bet.rs:15-16 | the corrected cancel fails with `InvalidMarket` unless the market is the bet's own, and otherwise behaves as `Cancel` |
| `CancelBet.Handler` | programs/sportsbet-encode/src/instructions/cancel_bet.rs:30-100 | the handler's updates give `Cancel`'s result on every path |
| `Client.OutcomeToContract` | app/src/lib/program.ts:20-31 | "teamA", "teamB" and "draw" map to their variant, and exactly every other string maps to `Pending` |
| `Client.OutcomeName` | app/src/lib/program.ts:6-11 | each enum value maps back, through `outcomeToContract`, to the outcome it names |
| `Client.GetAssociatedTokenAddress` | app/src/lib/program.ts:66-73 | the placeholder is 32 base58 digits `1`, the text of the all-zero key |
| `Client.AssociatedTokenAddressIgnoresInputs` | app/src/lib/program.ts:66-73 | the associated token address is the same placeholder for all inputs |
| `Client.TagBytes` | app/src/lib/program.ts:37-57 | the client's seed tags are the program's tag bytes |
| `Client.MarketSeeds` | app/src/lib/program.ts:34-39 | the client's market seeds equal the program's |
| `Client.VaultSeeds` | app/src/lib/program.ts:42-47 | the vault seeds are the program's tag then the address text's bytes, acceptable exactly when that text is at most 32 bytes |
| `Client.BetSeeds` | app/src/lib/program.ts:50-62 | the bet seeds are the program's tag then both address texts' bytes, acceptable exactly when each text is at most 32 bytes |
| `Client.GetMarketPda` | app/src/lib/program.ts:34-40 | the market address is defined exactly when the game id is at most 32 bytes, and is then the program's market address |
| `Client.GetVaultPda` | app/src/lib/program.ts:42-48 | the vault address is defined exactly when the address text is at most 32 bytes, and is then derived from the text's seeds |
| `Client.GetBetPda` | app/src/lib/program.ts:50-63 | the bet address is defined exactly when both address texts are at most 32 bytes each, and is then derived from the texts' seeds |
| `Client.AddressPdaDefinedIff` | app/src/lib/program.ts:42-63 | for base58 text, the vault and bet helpers fail exactly when an address text is longer than 32 characters |
| `Client.VaultSeedsDisagree` | app/src/lib/program.ts:42-47 | the client's vault seeds, built from address text, differ from the program's whenever the key has a byte that is not a base58 digit code |
| `Client.BetSeedsDisagree` | app/src/lib/program.ts:50-62 | the same for the bet seeds, through the market or the user |
| `Client.ZeroKeyVaultSeedsDisagree` | app/src/lib/program.ts:42-47 | for the all-zero key the client's vault seeds differ from the program's |
| `Sportsbook.Apply` | programs/sportsbet-encode/src/lib.rs:14-56 | no instruction moves the market or changes the users |
| `Sportsbook.Step` | programs/sportsbet-encode/src/lib.rs:14-56 | a call that fails (or names no such user) leaves the book exactly as it was; one that succeeds leaves the instruction's result; either way the book stays well formed |
| `Sportsbook.Run` | programs/sportsbet-encode/src/lib.rs:14-56 | a history of calls keeps the book well formed |
| `Sportsbook.PlaceBy` | programs/sportsbet-encode/src/instructions/place_bet.rs:34-109 | a placement under either rule set conserves the two balances and writes a bet for the signer on this market |
| `Sportsbook.ApplyWellFormed` | programs/sportsbet-encode/src/instructions/place_bet.rs:9-16 | every instruction keeps each bet account linked to its user and this market, and the vault the market's |
| `Sportsbook.ApplyConserves` | programs/sportsbet-encode/src/lib.rs:14-56 | no instruction creates or destroys tokens |
| `Sportsbook.RunConserves` | programs/sportsbet-encode/src/lib.rs:14-56 | over any history the tokens in the book stay the same |
| `Sportsbook.StepAfterResolution` | programs/sportsbet-encode/src/lib.rs:30-55 | after resolution no call changes the market or a claimed bet |
| `Sportsbook.RunAfterResolution` | programs/sportsbet-encode/src/lib.rs:30-55 | after resolution the market and the claimed bets stay frozen for ever |
| `Sportsbook.OwedWithinStakes` | programs/sportsbet-encode/src/instructions/claim_winnings.rs:58-63 | the rounded-down shares add up to at most the stakes' proportion of the total |
| `Sportsbook.OwedWithinTotal` | programs/sportsbet-encode/src/instructions/claim_winnings.rs:58-63 | all shares of the winning bets together fit in the total |
| `Sportsbook.InitialAccounting` | programs/sportsbet-encode/src/instructions/create_market.rs:52-61 | a freshly created market with no bets keeps the accounting |
| `Sportsbook.AccountingPlace` | programs/sportsbet-encode/src/instructions/place_bet.rs:58-99 | a corrected placement keeps the accounting |
| `Sportsbook.AccountingResolve` | programs/sportsbet-encode/src/instructions/resolve_market.rs:47-57 | resolution keeps the accounting: the vault then covers every share |
| `Sportsbook.AccountingClaim` | programs/sportsbet-encode/src/instructions/claim_winnings.rs:48-98 | a corrected claim keeps the accounting |
| `Sportsbook.AccountingCancel` | programs/sportsbet-encode/src/instructions/cancel_bet.rs:45-91 | a corrected cancel keeps the accounting |
| `Sportsbook.AccountingStep` | programs/sportsbet-encode/src/lib.rs:14-56 | every corrected call keeps the accounting |
| `Sportsbook.AccountingRun` | programs/sportsbet-encode/src/lib.rs:14-56 | every corrected history keeps the accounting |
| `Sportsbook.ClaimAlwaysPaid` | programs/sportsbet-encode/src/instructions/claim_winnings.rs:48-98 | after any corrected history, when twice the total payout pool fits in `u64`, a winning unclaimed bet with a stake can be claimed by its bettor, who receives at least 98% of the share |
| `Sportsbook.CancelAlwaysRefunds` | programs/sportsbet-encode/src/instructions/cancel_bet.rs:45-91 | after any corrected history a bet can be cancelled in time with a full refund |
| `Sportsbook.ResolveSucceeds` | programs/sportsbet-encode/src/instructions/resolve_market.rs:48 | the pool sum never overflows: resolution succeeds exactly when the authority signs after the game, once, naming an outcome |
| `Sportsbook.SwitchRun` | programs/sportsbet-encode/src/instructions/place_bet.rs:72-79 | the side-switch history runs as written to the stated book |
| `Sportsbook.SwitchedBetStrandsClaim` | programs/sportsbet-encode/src/instructions/place_bet.rs:75-76 | after a side switch, a winning unclaimed bet cannot be paid: the vault holds 144 of the 275 owed |
| `Sportsbook.SwitchRefused` | programs/sportsbet-encode/src/instructions/place_bet.rs:75-76 | the corrected rules refuse the side switch |
| `Sportsbook.DrainRun` | programs/sportsbet-encode/src/instructions/place_bet.rs:21-22 | the foreign-vault history runs as written to the stated book |
| `Sportsbook.FakeVaultDrainsRefund` | programs/sportsbet-encode/src/instructions/place_bet.rs:21-22 | after a deposit into a user's account and its cancellation, the vault is empty while pool A holds 100, and the remaining bettor's cancel fails |
| `Sportsbook.DrainRefused` | programs/sportsbet-encode/src/instructions/place_bet.rs:21-22 | the corrected rules refuse a deposit into an account the market does not own |

## Left out

- Address derivation is a parameter `derive` applied to the seed lists. The
  SHA-256 hash and the bump search are not modelled, so neither is the
  (practically never met) case where no bump gives an address off the curve.
- Bumps are parameters, and signer seeds are taken as valid.
- The clock is a parameter `now`. `Clock::get` is a system call.
- Discriminators, rent, account sizes at creation, `init_if_needed`
  payment, and account ownership checks are the runtime's work. The model
  keeps only what they decide: a new bet account reads as zero, and a market
  address in use refuses `create_market`.
- Mints are not modelled: token accounts have only an owner and a balance.
  Delegates and frozen accounts are not modelled either.
- The handlers take `requires vault != userTokenAccount`. The token program
  accepts a transfer to the same account, and the model does not cover that
  case.
- The program is taken to be built with Rust's `overflow-checks` on. A plain
  `+` or `-` that overflows (`start_time + 10800`, the pool sum,
  `start_time - 3600`) aborts the instruction. The workspace `Cargo.toml`
  that sets this is not part of this model.
- `Sportsbook` holds one market and its vault. Passing another market's
  accounts to an instruction is shown only at the level of a single
  instruction, by `CancelBet.CancelIgnoresBetMarket` and
  `PlaceBet.PlaceIgnoresVaultOwner`.
- The accounting invariant and solvency are proved for the corrected rules
  only. The two histories show that they fail as written.
- Event emission is modelled as the returned event value; logs are not
  modelled.
- The web front end is not modelled: components, providers, the
  floating-point win preview, and the bet-submission stub. The client's
  program and mint constants are not modelled either.
- The tests and `lib.rs`'s dispatch are not modelled beyond the five
  instructions they route to.

## Findings

| source | as written | input that shows it | evidently intended | confidence | as-written member | corrected member |
|---|---|---|---|---|---|---|
| programs/sportsbet-encode/src/instructions/place_bet.rs:75-76 | a later bet overwrites the outcome but adds to the amount, so an earlier stake counts on the new side while staying in the old pool | user 0 bets 100 on A then 50 on B, user 1 bets 200 on B, B wins: user 0 is paid 206 of 350 and user 1's 275 cannot be paid | a bet that still holds a stake may only add to its own outcome | not executed | `PlaceBet.PlaceRelabelsStake`, `Sportsbook.SwitchedBetStrandsClaim` | `PlaceBet.PlaceChecked`, `Sportsbook.ClaimAlwaysPaid` |
| programs/sportsbet-encode/src/instructions/claim_winnings.rs:20-24 | the signer is not compared with `bet.user`, and the winnings go to the signer's token account | any user signs a claim for another user's winning bet and passes their own token account | only the bettor may claim, as `cancel_bet` requires | not executed | `ClaimWinnings.ClaimIgnoresSigner` | `ClaimWinnings.ClaimOwned`, `Sportsbook.ClaimAlwaysPaid` |
| programs/sportsbet-encode/src/instructions/cancel_bet.rs:15-16 | the market passed in is not compared with `bet.market`; its window, pool and vault are used | a bet on one market is cancelled against another market whose window is still open, out of that market's vault | the market must be the bet's own | not executed | `CancelBet.CancelIgnoresBetMarket` | `CancelBet.CancelLinked`, `Sportsbook.CancelAlwaysRefunds` |
| programs/sportsbet-encode/src/instructions/place_bet.rs:21-22 | the vault is any token account; the pool grows whatever account receives the deposit | user 1 bets 100 on A into user 2's token account, then cancels it out of the real vault: user 0's 100 can no longer be refunded | the vault must be the market's token account, as at creation | not executed | `PlaceBet.PlaceIgnoresVaultOwner`, `Sportsbook.FakeVaultDrainsRefund` | `PlaceBet.PlaceChecked`, `Sportsbook.CancelAlwaysRefunds` |
