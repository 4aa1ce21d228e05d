/**
 * One market seen as a whole: the market account, its vault, and for every
 * user their bet account (absent until their first bet) and their token
 * account. Each call runs one instruction; a call that fails leaves every
 * account as it was, as the runtime does with a failed transaction.
 *
 * `AsWritten` runs the instructions as the program has them; `Corrected`
 * runs the three corrected instructions (`PlaceChecked`, `ClaimOwned`,
 * `CancelLinked`). The accounting invariant and solvency hold for the
 * corrected rules; the two traces at the end show them failing as written.
 */
module Sportsbook {
  import opened Numeric
  import opened Keys
  import opened Wrappers
  import opened Errors
  import opened Events
  import opened State
  import opened Token
  import PlaceBet
  import ResolveMarket
  import ClaimWinnings
  import CancelBet

  datatype Rules = AsWritten | Corrected

  /** Where a bet's deposit is sent: the market's vault or some user's token account. */
  datatype Escrow = Vault | Wallet(index: nat)

  datatype Instruction =
    | Place(bettor: nat, outcome: Outcome, amount: U64, escrow: Escrow, bump: Byte)
    | Resolve(resolver: Pubkey, winner: Outcome)
    | Claim(bettor: nat, signer: nat)
    | Cancel(bettor: nat, signer: nat)

  datatype Call = Call(instruction: Instruction, now: I64)

  datatype Book = Book(
    market: Market,
    marketKey: Pubkey,
    vault: TokenAccount,
    users: seq<Pubkey>,
    bets: seq<Option<Bet>>,
    wallets: seq<TokenAccount>)

  /**
   * User `i` holds token account `wallets[i]` and the bet account at the
   * address derived from (market, `users[i]`); the vault belongs to the market.
   */
  predicate WellFormed(b: Book) {
    && |b.users| == |b.bets| == |b.wallets|
    && b.vault.owner == b.marketKey
    && (forall i :: 0 <= i < |b.users| ==> b.wallets[i].owner == b.users[i] && b.users[i] != b.marketKey)
    && (forall i, j :: 0 <= i < j < |b.users| ==> b.users[i] != b.users[j])
    && (forall i :: 0 <= i < |b.bets| && b.bets[i].Some? ==>
          b.bets[i].value.user == b.users[i] && b.bets[i].value.market == b.marketKey)
  }

  /** A call names users that exist; a deposit never goes back to the depositor's own account. */
  predicate ValidCall(b: Book, c: Call) {
    match c.instruction
    case Place(i, _, _, escrow, _) =>
      i < |b.users| && (escrow.Wallet? ==> escrow.index < |b.users| && escrow.index != i)
    case Resolve(_, _) => true
    case Claim(i, s) => i < |b.users| && s < |b.users|
    case Cancel(i, s) => i < |b.users| && s < |b.users|
  }

  /** The data of user `i`'s bet account; `init_if_needed` creates it zeroed. */
  function BetAt(b: Book, i: nat): Bet
    requires i < |b.bets|
  {
    if b.bets[i].Some? then b.bets[i].value else ZeroBet
  }

  /**
   * The instruction a call names, dispatched as the program's entry points
   * do. No instruction moves the market or changes who the users are.
   */
  function Apply(rules: Rules, b: Book, c: Call): (r: Result<Book, Error>)
    requires WellFormed(b) && ValidCall(b, c)
    ensures r.Ok? ==> r.value.marketKey == b.marketKey && r.value.users == b.users
  {
    match c.instruction
    case Place(i, outcome, amount, escrow, bump) => ApplyPlace(rules, b, i, outcome, amount, escrow, bump, c.now)
    case Resolve(resolver, winner) => ApplyResolve(b, resolver, winner, c.now)
    case Claim(i, s) => ApplyClaim(rules, b, i, s)
    case Cancel(i, s) => ApplyCancel(rules, b, i, s, c.now)
  }

  function ApplyPlace(rules: Rules, b: Book, i: nat, outcome: Outcome, amount: U64, escrow: Escrow, bump: Byte, now: I64)
    : Result<Book, Error>
    requires WellFormed(b) && i < |b.users| && (escrow.Wallet? ==> escrow.index < |b.users| && escrow.index != i)
  {
    var dest := if escrow.Vault? then b.vault else b.wallets[escrow.index];
    match PlaceBy(rules, b.market, b.marketKey, BetAt(b, i), bump, b.users[i], b.wallets[i], dest, outcome, amount, now)
    case Err(e) => Err(e)
    case Ok(p) =>
      var wallets := b.wallets[i := p.userTokens];
      if escrow.Vault?
      then Ok(b.(market := p.market, vault := p.vault, bets := b.bets[i := Some(p.bet)], wallets := wallets))
      else Ok(b.(market := p.market, bets := b.bets[i := Some(p.bet)], wallets := wallets[escrow.index := p.vault]))
  }

  /** `place_bet` under either rule set, with what both promise about the accounts. */
  function PlaceBy(rules: Rules, market: Market, marketKey: Pubkey, bet: Bet, bump: Byte, user: Pubkey,
                   userTokens: TokenAccount, vault: TokenAccount, outcome: Outcome, amount: U64, now: I64)
    : (r: Result<PlaceBet.Placed, Error>)
    ensures rules == AsWritten ==> r == PlaceBet.Place(market, marketKey, bet, bump, user, userTokens, vault, outcome, amount, now)
    ensures rules == Corrected ==> r == PlaceBet.PlaceChecked(market, marketKey, bet, bump, user, userTokens, vault, outcome, amount, now)
    ensures r.Ok? ==>
      && r.value.userTokens.amount + r.value.vault.amount == userTokens.amount + vault.amount
      && r.value.userTokens.owner == userTokens.owner && r.value.vault.owner == vault.owner
      && r.value.bet.user == user && r.value.bet.market == marketKey
  {
    if rules == AsWritten
    then PlaceBet.Place(market, marketKey, bet, bump, user, userTokens, vault, outcome, amount, now)
    else PlaceBet.PlaceChecked(market, marketKey, bet, bump, user, userTokens, vault, outcome, amount, now)
  }

  function ApplyResolve(b: Book, resolver: Pubkey, winner: Outcome, now: I64): Result<Book, Error> {
    match ResolveMarket.Resolve(b.market, b.marketKey, resolver, winner, now)
    case Err(e) => Err(e)
    case Ok(res) => Ok(b.(market := res.market))
  }

  function ApplyClaim(rules: Rules, b: Book, i: nat, s: nat): Result<Book, Error>
    requires WellFormed(b) && i < |b.users| && s < |b.users|
  {
    if b.bets[i].None? then Err(Runtime(AccountNotInitialized))
    else
      var r := if rules == AsWritten
        then ClaimWinnings.Claim(b.market, b.marketKey, b.bets[i].value, b.users[s], b.vault, b.wallets[s])
        else ClaimWinnings.ClaimOwned(b.market, b.marketKey, b.bets[i].value, b.users[s], b.vault, b.wallets[s]);
      match r
      case Err(e) => Err(e)
      case Ok(cl) => Ok(b.(vault := cl.vault, bets := b.bets[i := Some(cl.bet)], wallets := b.wallets[s := cl.userTokens]))
  }

  function ApplyCancel(rules: Rules, b: Book, i: nat, s: nat, now: I64): Result<Book, Error>
    requires WellFormed(b) && i < |b.users| && s < |b.users|
  {
    if b.bets[i].None? then Err(Runtime(AccountNotInitialized))
    else
      var r := if rules == AsWritten
        then CancelBet.Cancel(b.market, b.marketKey, b.bets[i].value, b.users[s], b.vault, b.wallets[s], now)
        else CancelBet.CancelLinked(b.market, b.marketKey, b.bets[i].value, b.users[s], b.vault, b.wallets[s], now);
      match r
      case Err(e) => Err(e)
      case Ok(cn) => Ok(b.(market := cn.market, vault := cn.vault, bets := b.bets[i := Some(cn.bet)],
                           wallets := b.wallets[s := cn.userTokens]))
  }

  /** Every successful instruction keeps the book well formed. */
  lemma ApplyWellFormed(rules: Rules, b: Book, c: Call)
    requires WellFormed(b) && ValidCall(b, c)
    ensures Apply(rules, b, c).Ok? ==> WellFormed(Apply(rules, b, c).value)
  {
    match c.instruction
    case Place(i, outcome, amount, escrow, bump) => PlaceWellFormed(rules, b, i, outcome, amount, escrow, bump, c.now);
    case Resolve(_, _) =>
    case Claim(i, s) => ClaimWellFormed(rules, b, i, s);
    case Cancel(i, s) => CancelWellFormed(rules, b, i, s, c.now);
  }

  lemma PlaceWellFormed(rules: Rules, b: Book, i: nat, outcome: Outcome, amount: U64, escrow: Escrow, bump: Byte, now: I64)
    requires WellFormed(b) && i < |b.users| && (escrow.Wallet? ==> escrow.index < |b.users| && escrow.index != i)
    ensures ApplyPlace(rules, b, i, outcome, amount, escrow, bump, now).Ok? ==>
      WellFormed(ApplyPlace(rules, b, i, outcome, amount, escrow, bump, now).value)
  {
    if ApplyPlace(rules, b, i, outcome, amount, escrow, bump, now).Ok? {
      var b' := ApplyPlace(rules, b, i, outcome, amount, escrow, bump, now).value;
      assert b'.users == b.users && b'.marketKey == b.marketKey && b'.vault.owner == b.vault.owner;
      assert b'.bets == b.bets[i := b'.bets[i]];
      assert b'.bets[i].value.user == b.users[i] && b'.bets[i].value.market == b.marketKey;
      assert forall j :: 0 <= j < |b'.wallets| ==> b'.wallets[j].owner == b.wallets[j].owner;
    }
  }

  lemma ClaimWellFormed(rules: Rules, b: Book, i: nat, s: nat)
    requires WellFormed(b) && i < |b.users| && s < |b.users|
    ensures ApplyClaim(rules, b, i, s).Ok? ==> WellFormed(ApplyClaim(rules, b, i, s).value)
  {
    if ApplyClaim(rules, b, i, s).Ok? {
      var b' := ApplyClaim(rules, b, i, s).value;
      assert b'.bets == b.bets[i := b'.bets[i]];
      assert b'.bets[i].value.user == b.bets[i].value.user && b'.bets[i].value.market == b.bets[i].value.market;
      assert b'.wallets == b.wallets[s := b'.wallets[s]] && b'.wallets[s].owner == b.wallets[s].owner;
    }
  }

  lemma CancelWellFormed(rules: Rules, b: Book, i: nat, s: nat, now: I64)
    requires WellFormed(b) && i < |b.users| && s < |b.users|
    ensures ApplyCancel(rules, b, i, s, now).Ok? ==> WellFormed(ApplyCancel(rules, b, i, s, now).value)
  {
    if ApplyCancel(rules, b, i, s, now).Ok? {
      var b' := ApplyCancel(rules, b, i, s, now).value;
      assert b'.bets == b.bets[i := b'.bets[i]];
      assert b'.bets[i].value.user == b.bets[i].value.user && b'.bets[i].value.market == b.bets[i].value.market;
      assert b'.wallets == b.wallets[s := b'.wallets[s]] && b'.wallets[s].owner == b.wallets[s].owner;
    }
  }

  /** One call: the instruction's effect, or no change at all when it fails. */
  function Step(rules: Rules, b: Book, c: Call): (r: Book)
    requires WellFormed(b)
    ensures WellFormed(r)
    ensures !(ValidCall(b, c) && Apply(rules, b, c).Ok?) ==> r == b
    ensures ValidCall(b, c) && Apply(rules, b, c).Ok? ==> r == Apply(rules, b, c).value
  {
    if !ValidCall(b, c) then b
    else
      ApplyWellFormed(rules, b, c);
      match Apply(rules, b, c)
      case Ok(b') => b'
      case Err(_) => b
  }

  function Run(rules: Rules, b: Book, calls: seq<Call>): (r: Book)
    requires WellFormed(b)
    ensures WellFormed(r)
    decreases |calls|
  {
    if |calls| == 0 then b else Run(rules, Step(rules, b, calls[0]), calls[1..])
  }

  // ---------------------------------------------------------------------------
  // Sums over the users.

  function SumAmounts(ws: seq<TokenAccount>): nat {
    if |ws| == 0 then 0 else SumAmounts(ws[..|ws| - 1]) + ws[|ws| - 1].amount
  }

  lemma {:induction false} SumAmountsUpdate(ws: seq<TokenAccount>, i: nat, x: TokenAccount)
    requires i < |ws|
    ensures SumAmounts(ws[i := x]) == SumAmounts(ws) - ws[i].amount + x.amount
  {
    var n := |ws| - 1;
    if i == n {
      assert ws[i := x][..n] == ws[..n];
    } else {
      assert ws[i := x][..n] == ws[..n][i := x];
      SumAmountsUpdate(ws[..n], i, x);
    }
  }

  /** All tokens the book holds: the vault and every user's account. */
  function Tokens(b: Book): nat {
    b.vault.amount + SumAmounts(b.wallets)
  }

  /** The stake a bet slot holds on `o`. */
  function StakeOf(x: Option<Bet>, o: Outcome): nat {
    if x.Some? && x.value.outcome == o then x.value.amount else 0
  }

  /** What the bet accounts together hold on `o`. */
  function StakeOn(bets: seq<Option<Bet>>, o: Outcome): nat {
    if |bets| == 0 then 0 else StakeOn(bets[..|bets| - 1], o) + StakeOf(bets[|bets| - 1], o)
  }

  lemma {:induction false} StakeOnUpdate(bets: seq<Option<Bet>>, i: nat, x: Option<Bet>, o: Outcome)
    requires i < |bets|
    ensures StakeOn(bets[i := x], o) == StakeOn(bets, o) - StakeOf(bets[i], o) + StakeOf(x, o)
  {
    var n := |bets| - 1;
    if i == n {
      assert bets[i := x][..n] == bets[..n];
    } else {
      assert bets[i := x][..n] == bets[..n][i := x];
      StakeOnUpdate(bets[..n], i, x, o);
    }
  }

  lemma {:induction false} StakeOfAtMostStakeOn(bets: seq<Option<Bet>>, i: nat, o: Outcome)
    requires i < |bets|
    ensures StakeOf(bets[i], o) <= StakeOn(bets, o)
  {
    var n := |bets| - 1;
    if i < n {
      assert bets[..n][i] == bets[i];
      StakeOfAtMostStakeOn(bets[..n], i, o);
    }
  }

  /** The share still owed to a bet slot: its proportional share if it is an unclaimed bet on `w`. */
  function OwedOf(x: Option<Bet>, w: Outcome, total: U64, winning: U64): nat
    requires winning > 0
  {
    if x.Some? && x.value.outcome == w && !x.value.claimed
    then ClaimWinnings.Share(x.value.amount, total, winning) else 0
  }

  function Owed(bets: seq<Option<Bet>>, w: Outcome, total: U64, winning: U64): nat
    requires winning > 0
  {
    if |bets| == 0 then 0 else Owed(bets[..|bets| - 1], w, total, winning) + OwedOf(bets[|bets| - 1], w, total, winning)
  }

  lemma {:induction false} OwedUpdate(bets: seq<Option<Bet>>, i: nat, x: Option<Bet>, w: Outcome, total: U64, winning: U64)
    requires i < |bets| && winning > 0
    ensures Owed(bets[i := x], w, total, winning)
            == Owed(bets, w, total, winning) - OwedOf(bets[i], w, total, winning) + OwedOf(x, w, total, winning)
  {
    var n := |bets| - 1;
    if i == n {
      assert bets[i := x][..n] == bets[..n];
    } else {
      assert bets[i := x][..n] == bets[..n][i := x];
      OwedUpdate(bets[..n], i, x, w, total, winning);
    }
  }

  /**
   * The shares of the bets on `w` add up to at most their proportion of the
   * total: rounding each share down never makes the sum exceed it.
   */
  lemma {:induction false} OwedWithinStakes(bets: seq<Option<Bet>>, w: Outcome, total: U64, winning: U64)
    requires winning > 0 && StakeOn(bets, w) <= winning
    ensures Owed(bets, w, total, winning) * winning <= StakeOn(bets, w) * total
  {
    if |bets| > 0 {
      var n := |bets| - 1;
      var last := bets[n];
      OwedWithinStakes(bets[..n], w, total, winning);
      OwedOfWithinStake(last, w, total, winning);
      SumOfProducts(Owed(bets[..n], w, total, winning), OwedOf(last, w, total, winning),
                    StakeOn(bets[..n], w), StakeOf(last, w), winning, total);
    }
  }

  /** One bet's share, times the winning pool, is at most its stake times the total. */
  lemma OwedOfWithinStake(x: Option<Bet>, w: Outcome, total: U64, winning: U64)
    requires winning > 0 && StakeOf(x, w) <= winning
    ensures OwedOf(x, w, total, winning) * winning <= StakeOf(x, w) * total
  {
    if x.Some? && x.value.outcome == w && !x.value.claimed {
      assert StakeOf(x, w) == x.value.amount;
    }
  }

  lemma SumOfProducts(a: nat, b: nat, c: nat, d: nat, k: nat, m: nat)
    requires a * k <= c * m && b * k <= d * m
    ensures (a + b) * k <= (c + d) * m
  {
    assert (a + b) * k == a * k + b * k;
    assert (c + d) * m == c * m + d * m;
  }

  lemma CancelFactor(x: nat, y: nat, k: nat)
    requires k > 0 && x * k <= y * k
    ensures x <= y
  {
  }

  /** When the winning pool is exactly the stake on `w`, all shares together fit in the total. */
  lemma OwedWithinTotal(bets: seq<Option<Bet>>, w: Outcome, total: U64, winning: U64)
    requires winning > 0 && StakeOn(bets, w) == winning
    ensures Owed(bets, w, total, winning) <= total
  {
    OwedWithinStakes(bets, w, total, winning);
    CancelFactor(Owed(bets, w, total, winning), total, winning);
  }

  lemma {:induction false} AmountAtMostSum(ws: seq<TokenAccount>, i: nat)
    requires i < |ws|
    ensures ws[i].amount <= SumAmounts(ws)
  {
    var n := |ws| - 1;
    if i < n {
      assert ws[..n][i] == ws[i];
      AmountAtMostSum(ws[..n], i);
    }
  }

  lemma {:induction false} OwedOfAtMostOwed(bets: seq<Option<Bet>>, i: nat, w: Outcome, total: U64, winning: U64)
    requires i < |bets| && winning > 0
    ensures OwedOf(bets[i], w, total, winning) <= Owed(bets, w, total, winning)
  {
    var n := |bets| - 1;
    if i < n {
      assert bets[..n][i] == bets[i];
      OwedOfAtMostOwed(bets[..n], i, w, total, winning);
    }
  }

  // ---------------------------------------------------------------------------
  // What holds under both rule sets.

  /** No instruction creates or destroys tokens: they only move between the vault and the users. */
  lemma ApplyConserves(rules: Rules, b: Book, c: Call)
    requires WellFormed(b) && ValidCall(b, c) && Apply(rules, b, c).Ok?
    ensures Tokens(Apply(rules, b, c).value) == Tokens(b)
    ensures Apply(rules, b, c).value.users == b.users
    ensures Apply(rules, b, c).value.marketKey == b.marketKey
  {
    match c.instruction
    case Place(i, outcome, amount, escrow, bump) => PlaceConserves(rules, b, i, outcome, amount, escrow, bump, c.now);
    case Resolve(_, _) =>
    case Claim(i, s) => ClaimConserves(rules, b, i, s);
    case Cancel(i, s) => CancelConserves(rules, b, i, s, c.now);
  }

  lemma PlaceConserves(rules: Rules, b: Book, i: nat, outcome: Outcome, amount: U64, escrow: Escrow, bump: Byte, now: I64)
    requires WellFormed(b) && i < |b.users| && (escrow.Wallet? ==> escrow.index < |b.users| && escrow.index != i)
    requires ApplyPlace(rules, b, i, outcome, amount, escrow, bump, now).Ok?
    ensures var b' := ApplyPlace(rules, b, i, outcome, amount, escrow, bump, now).value;
      Tokens(b') == Tokens(b) && b'.users == b.users && b'.marketKey == b.marketKey
  {
    if escrow.Wallet? {
      PlaceIntoWalletConserves(rules, b, i, outcome, amount, escrow.index, bump, now);
    } else {
      var b' := ApplyPlace(rules, b, i, outcome, amount, escrow, bump, now).value;
      assert b'.wallets == b.wallets[i := b'.wallets[i]];
      SumAmountsUpdate(b.wallets, i, b'.wallets[i]);
    }
  }

  /** A deposit into user `j`'s account moves tokens between two users' accounts only. */
  lemma PlaceIntoWalletConserves(rules: Rules, b: Book, i: nat, outcome: Outcome, amount: U64, j: nat, bump: Byte, now: I64)
    requires WellFormed(b) && i < |b.users| && j < |b.users| && j != i
    requires ApplyPlace(rules, b, i, outcome, amount, Wallet(j), bump, now).Ok?
    ensures var b' := ApplyPlace(rules, b, i, outcome, amount, Wallet(j), bump, now).value;
      Tokens(b') == Tokens(b) && b'.users == b.users && b'.marketKey == b.marketKey
  {
    var b' := ApplyPlace(rules, b, i, outcome, amount, Wallet(j), bump, now).value;
    var ws := b.wallets[i := b'.wallets[i]];
    SumAmountsUpdate(b.wallets, i, b'.wallets[i]);
    assert b'.wallets == ws[j := b'.wallets[j]];
    SumAmountsUpdate(ws, j, b'.wallets[j]);
  }

  lemma ClaimConserves(rules: Rules, b: Book, i: nat, s: nat)
    requires WellFormed(b) && i < |b.users| && s < |b.users| && ApplyClaim(rules, b, i, s).Ok?
    ensures var b' := ApplyClaim(rules, b, i, s).value;
      Tokens(b') == Tokens(b) && b'.users == b.users && b'.marketKey == b.marketKey
  {
    var b' := ApplyClaim(rules, b, i, s).value;
    assert b'.wallets == b.wallets[s := b'.wallets[s]];
    SumAmountsUpdate(b.wallets, s, b'.wallets[s]);
  }

  lemma CancelConserves(rules: Rules, b: Book, i: nat, s: nat, now: I64)
    requires WellFormed(b) && i < |b.users| && s < |b.users| && ApplyCancel(rules, b, i, s, now).Ok?
    ensures var b' := ApplyCancel(rules, b, i, s, now).value;
      Tokens(b') == Tokens(b) && b'.users == b.users && b'.marketKey == b.marketKey
  {
    var b' := ApplyCancel(rules, b, i, s, now).value;
    assert b'.wallets == b.wallets[s := b'.wallets[s]];
    SumAmountsUpdate(b.wallets, s, b'.wallets[s]);
  }

  lemma StepConserves(rules: Rules, b: Book, c: Call)
    requires WellFormed(b)
    ensures Tokens(Step(rules, b, c)) == Tokens(b)
    ensures Step(rules, b, c).users == b.users && Step(rules, b, c).marketKey == b.marketKey
  {
    if ValidCall(b, c) && Apply(rules, b, c).Ok? {
      ApplyConserves(rules, b, c);
    }
  }

  /** Over any sequence of calls the tokens in the book stay the same. */
  lemma {:induction false} RunConserves(rules: Rules, b: Book, calls: seq<Call>)
    requires WellFormed(b)
    ensures Tokens(Run(rules, b, calls)) == Tokens(b)
    ensures Run(rules, b, calls).users == b.users && Run(rules, b, calls).marketKey == b.marketKey
    decreases |calls|
  {
    if |calls| > 0 {
      StepConserves(rules, b, calls[0]);
      RunConserves(rules, Step(rules, b, calls[0]), calls[1..]);
    }
  }

  /** A bet slot that holds a claimed bet. */
  predicate Settled(b: Book, i: nat) {
    i < |b.bets| && b.bets[i].Some? && b.bets[i].value.claimed
  }

  /**
   * Once the market is resolved no instruction changes it, and a bet once
   * claimed stays as it is: resolution happens once and a bet is paid once.
   */
  lemma StepAfterResolution(rules: Rules, b: Book, c: Call)
    requires WellFormed(b) && b.market.isResolved
    ensures Step(rules, b, c).market == b.market
    ensures |Step(rules, b, c).bets| == |b.bets|
    ensures forall i: nat :: Settled(b, i) ==> Step(rules, b, c).bets[i] == b.bets[i]
  {
    if ValidCall(b, c) && Apply(rules, b, c).Ok? {
      var b' := Apply(rules, b, c).value;
      match c.instruction
      case Place(i, outcome, amount, escrow, bump) =>
        assert false;
      case Resolve(_, _) =>
        assert false;
      case Claim(i, s) =>
        assert !b.bets[i].value.claimed;
        assert b'.bets == b.bets[i := b'.bets[i]];
      case Cancel(i, s) =>
        assert false;
    }
  }

  lemma {:induction false} RunAfterResolution(rules: Rules, b: Book, calls: seq<Call>)
    requires WellFormed(b) && b.market.isResolved
    ensures Run(rules, b, calls).market == b.market
    ensures |Run(rules, b, calls).bets| == |b.bets|
    ensures forall i: nat :: Settled(b, i) ==> Run(rules, b, calls).bets[i] == b.bets[i]
    decreases |calls|
  {
    if |calls| > 0 {
      var b1 := Step(rules, b, calls[0]);
      StepAfterResolution(rules, b, calls[0]);
      assert forall i: nat :: Settled(b, i) ==> Settled(b1, i);
      RunAfterResolution(rules, b1, calls[1..]);
    }
  }

  // ---------------------------------------------------------------------------
  // The accounting the corrected instructions keep.

  /** A book right after `create_market`: empty pools, nothing resolved, an empty vault, no bets. */
  predicate Initial(b: Book) {
    && WellFormed(b)
    && !b.market.isResolved && PoolSum(b.market) == 0
    && b.vault.amount == 0
    && (forall i :: 0 <= i < |b.bets| ==> b.bets[i].None?)
    // all accounts of one mint together hold at most its `u64` supply
    && Tokens(b) <= U64_MAX
  }

  /**
   * Each pool is what the bets on its outcome hold. Until resolution the
   * vault holds exactly the pools; afterwards it holds at least every share
   * still owed to an unclaimed winning bet.
   */
  predicate Accounting(b: Book) {
    && WellFormed(b)
    && Tokens(b) <= U64_MAX
    && (forall i :: 0 <= i < |b.bets| && b.bets[i].Some? ==> b.bets[i].value.outcome != Pending)
    && (forall o :: o != Pending ==> Pool(b.market, o) == StakeOn(b.bets, o))
    && (!b.market.isResolved ==> b.vault.amount == PoolSum(b.market))
    && (b.market.isResolved ==>
          && b.market.totalPayoutPool == PoolSum(b.market)
          && b.market.winningOutcome != Pending
          && b.market.winningPool == Pool(b.market, b.market.winningOutcome)
          && (b.market.winningPool > 0 ==>
                b.vault.amount >= Owed(b.bets, b.market.winningOutcome, b.market.totalPayoutPool, b.market.winningPool)))
  }

  lemma {:induction false} NoStakes(bets: seq<Option<Bet>>, o: Outcome)
    requires forall i :: 0 <= i < |bets| ==> bets[i].None?
    ensures StakeOn(bets, o) == 0
  {
    if |bets| > 0 {
      NoStakes(bets[..|bets| - 1], o);
    }
  }

  lemma InitialAccounting(b: Book)
    requires Initial(b)
    ensures Accounting(b)
  {
    forall o | o != Pending
      ensures Pool(b.market, o) == StakeOn(b.bets, o)
    {
      NoStakes(b.bets, o);
    }
  }

  lemma AccountingPlace(b: Book, i: nat, outcome: Outcome, amount: U64, escrow: Escrow, bump: Byte, now: I64)
    requires Accounting(b) && i < |b.users| && (escrow.Wallet? ==> escrow.index < |b.users| && escrow.index != i)
    requires ApplyPlace(Corrected, b, i, outcome, amount, escrow, bump, now).Ok?
    ensures Accounting(ApplyPlace(Corrected, b, i, outcome, amount, escrow, bump, now).value)
  {
    var b' := ApplyPlace(Corrected, b, i, outcome, amount, escrow, bump, now).value;
    PlaceConserves(Corrected, b, i, outcome, amount, escrow, bump, now);
    if escrow.Wallet? {
      // the corrected instruction only pays into an account of the market
      assert false;
    }
    var prior := BetAt(b, i);
    var p := PlaceBet.PlaceChecked(b.market, b.marketKey, prior, bump, b.users[i], b.wallets[i], b.vault, outcome, amount, now).value;
    assert b'.bets == b.bets[i := Some(p.bet)];
    assert StakeOf(b.bets[i], outcome) == prior.amount;
    forall o | o != Pending
      ensures Pool(b'.market, o) == StakeOn(b'.bets, o)
    {
      StakeOnUpdate(b.bets, i, Some(p.bet), o);
      if o != outcome {
        assert StakeOf(b.bets[i], o) == 0;
      }
    }
  }

  lemma AccountingResolve(b: Book, resolver: Pubkey, winner: Outcome, now: I64)
    requires Accounting(b) && ApplyResolve(b, resolver, winner, now).Ok?
    ensures Accounting(ApplyResolve(b, resolver, winner, now).value)
  {
    var b' := ApplyResolve(b, resolver, winner, now).value;
    assert forall o :: Pool(b'.market, o) == Pool(b.market, o);
    if b'.market.winningPool > 0 {
      OwedWithinTotal(b.bets, winner, b'.market.totalPayoutPool, b'.market.winningPool);
    }
  }

  lemma AccountingClaim(b: Book, i: nat, s: nat)
    requires Accounting(b) && i < |b.users| && s < |b.users| && ApplyClaim(Corrected, b, i, s).Ok?
    ensures Accounting(ApplyClaim(Corrected, b, i, s).value)
  {
    var b' := ApplyClaim(Corrected, b, i, s).value;
    ClaimConserves(Corrected, b, i, s);
    var bet := b.bets[i].value;
    // only the bettor can sign, so the payout goes to user `i`
    assert b.users[s] == bet.user == b.users[i];
    assert s == i;
    var m := b.market;
    var w := m.winningOutcome;
    var cl := ClaimWinnings.Claim(m, b.marketKey, bet, b.users[s], b.vault, b.wallets[s]).value;
    assert b'.bets == b.bets[i := Some(cl.bet)];
    forall o | o != Pending
      ensures Pool(b'.market, o) == StakeOn(b'.bets, o)
    {
      StakeOnUpdate(b.bets, i, Some(cl.bet), o);
    }
    OwedUpdate(b.bets, i, Some(cl.bet), w, m.totalPayoutPool, m.winningPool);
    var share := ClaimWinnings.Share(bet.amount, m.totalPayoutPool, m.winningPool);
    assert OwedOf(b.bets[i], w, m.totalPayoutPool, m.winningPool) == share;
    assert cl.bet.winnings <= share;
  }

  lemma AccountingCancel(b: Book, i: nat, s: nat, now: I64)
    requires Accounting(b) && i < |b.users| && s < |b.users| && ApplyCancel(Corrected, b, i, s, now).Ok?
    ensures Accounting(ApplyCancel(Corrected, b, i, s, now).value)
  {
    var b' := ApplyCancel(Corrected, b, i, s, now).value;
    CancelConserves(Corrected, b, i, s, now);
    var bet := b.bets[i].value;
    assert b.users[s] == bet.user == b.users[i];
    assert s == i;
    var cn := CancelBet.Cancel(b.market, b.marketKey, bet, b.users[s], b.vault, b.wallets[s], now).value;
    assert b'.bets == b.bets[i := Some(cn.bet)];
    forall o | o != Pending
      ensures Pool(b'.market, o) == StakeOn(b'.bets, o)
    {
      StakeOnUpdate(b.bets, i, Some(cn.bet), o);
    }
  }

  /** Every corrected call keeps the accounting. */
  lemma AccountingStep(b: Book, c: Call)
    requires Accounting(b)
    ensures Accounting(Step(Corrected, b, c))
  {
    if ValidCall(b, c) && Apply(Corrected, b, c).Ok? {
      match c.instruction
      case Place(i, outcome, amount, escrow, bump) => AccountingPlace(b, i, outcome, amount, escrow, bump, c.now);
      case Resolve(resolver, winner) => AccountingResolve(b, resolver, winner, c.now);
      case Claim(i, s) => AccountingClaim(b, i, s);
      case Cancel(i, s) => AccountingCancel(b, i, s, c.now);
    }
  }

  lemma {:induction false} AccountingRun(b: Book, calls: seq<Call>)
    requires Accounting(b)
    ensures Accounting(Run(Corrected, b, calls))
    decreases |calls|
  {
    if |calls| > 0 {
      AccountingStep(b, calls[0]);
      AccountingRun(Step(Corrected, b, calls[0]), calls[1..]);
    }
  }

  // ---------------------------------------------------------------------------
  // Solvency under the corrected rules.

  /**
   * After any corrected history, an unclaimed winning bet with a stake can
   * always be claimed by its bettor, who receives at least 98% of the
   * proportional share (the fee's `checked_mul` needs the total within half
   * the `u64` range).
   */
  lemma ClaimAlwaysPaid(b0: Book, calls: seq<Call>, i: nat)
    requires Initial(b0)
    requires var b := Run(Corrected, b0, calls);
      && b.market.isResolved && i < |b.bets| && b.bets[i].Some?
      && !b.bets[i].value.claimed && b.bets[i].value.amount > 0
      && b.bets[i].value.outcome == b.market.winningOutcome
      && 2 * b.market.totalPayoutPool <= U64_MAX
    ensures var b := Run(Corrected, b0, calls);
      var r := ApplyClaim(Corrected, b, i, i);
      && r.Ok?
      && r.value.bets[i].Some? && r.value.bets[i].value.claimed
      && r.value.wallets[i].amount == b.wallets[i].amount + r.value.bets[i].value.winnings
      && 100 * r.value.bets[i].value.winnings
         >= 98 * ClaimWinnings.Share(b.bets[i].value.amount, b.market.totalPayoutPool, b.market.winningPool)
  {
    InitialAccounting(b0);
    AccountingRun(b0, calls);
    ClaimPaid(Run(Corrected, b0, calls), i);
  }

  /** The step of `ClaimAlwaysPaid` that needs only the accounting invariant. */
  lemma ClaimPaid(b: Book, i: nat)
    requires Accounting(b)
    requires && b.market.isResolved && i < |b.bets| && b.bets[i].Some?
      && !b.bets[i].value.claimed && b.bets[i].value.amount > 0
      && b.bets[i].value.outcome == b.market.winningOutcome
      && 2 * b.market.totalPayoutPool <= U64_MAX
    ensures var r := ApplyClaim(Corrected, b, i, i);
      && r.Ok?
      && r.value.bets[i].Some? && r.value.bets[i].value.claimed
      && r.value.wallets[i].amount == b.wallets[i].amount + r.value.bets[i].value.winnings
      && 100 * r.value.bets[i].value.winnings
         >= 98 * ClaimWinnings.Share(b.bets[i].value.amount, b.market.totalPayoutPool, b.market.winningPool)
  {
    var m := b.market;
    var w := m.winningOutcome;
    var bet := b.bets[i].value;
    StakeOfAtMostStakeOn(b.bets, i, w);
    assert 0 < bet.amount <= m.winningPool;
    var share := ClaimWinnings.Share(bet.amount, m.totalPayoutPool, m.winningPool);
    assert share <= m.totalPayoutPool;
    OwedOfAtMostOwed(b.bets, i, w, m.totalPayoutPool, m.winningPool);
    assert share <= b.vault.amount;
    AmountAtMostSum(b.wallets, i);
    assert b.wallets[i].amount + b.vault.amount <= U64_MAX;
    var payout := ClaimWinnings.ComputePayout(bet.amount, m.totalPayoutPool, m.winningPool);
    assert payout.Ok?;
    assert payout.value.winnings <= share;
  }

  /**
   * After any corrected history, before resolution and inside the window,
   * a bettor can always take their stake back in full.
   */
  lemma CancelAlwaysRefunds(b0: Book, calls: seq<Call>, i: nat, now: I64)
    requires Initial(b0)
    requires var b := Run(Corrected, b0, calls);
      && !b.market.isResolved && i < |b.bets| && b.bets[i].Some?
      && b.market.startTime - CancelBet.CANCEL_CUTOFF >= I64_MIN
      && now < b.market.startTime - CancelBet.CANCEL_CUTOFF
    ensures var b := Run(Corrected, b0, calls);
      var r := ApplyCancel(Corrected, b, i, i, now);
      && r.Ok?
      && r.value.wallets[i].amount == b.wallets[i].amount + b.bets[i].value.amount
      && r.value.bets[i].Some? && r.value.bets[i].value.amount == 0
  {
    InitialAccounting(b0);
    AccountingRun(b0, calls);
    CancelRefunds(Run(Corrected, b0, calls), i, now);
  }

  /** The step of `CancelAlwaysRefunds` that needs only the accounting invariant. */
  lemma CancelRefunds(b: Book, i: nat, now: I64)
    requires Accounting(b)
    requires && !b.market.isResolved && i < |b.bets| && b.bets[i].Some?
      && b.market.startTime - CancelBet.CANCEL_CUTOFF >= I64_MIN
      && now < b.market.startTime - CancelBet.CANCEL_CUTOFF
    ensures var r := ApplyCancel(Corrected, b, i, i, now);
      && r.Ok?
      && r.value.wallets[i].amount == b.wallets[i].amount + b.bets[i].value.amount
      && r.value.bets[i].Some? && r.value.bets[i].value.amount == 0
  {
    var bet := b.bets[i].value;
    StakeOfAtMostStakeOn(b.bets, i, bet.outcome);
    assert bet.amount <= Pool(b.market, bet.outcome) <= PoolSum(b.market) == b.vault.amount;
    AmountAtMostSum(b.wallets, i);
  }

  /**
   * The pools always fit in a `u64` together, because the vault holds them:
   * resolution by the authority after the game, naming an outcome, always
   * goes through and never hits the overflow of the pool sum.
   */
  lemma ResolveSucceeds(b: Book, resolver: Pubkey, winner: Outcome, now: I64)
    requires Accounting(b)
    ensures ApplyResolve(b, resolver, winner, now).Ok? <==>
      && resolver == b.market.authority
      && now > b.market.startTime + ResolveMarket.GAME_DURATION
      && !b.market.isResolved && winner != Pending
  {
    if !b.market.isResolved {
      assert PoolSum(b.market) == b.vault.amount <= Tokens(b);
    }
  }

  // ---------------------------------------------------------------------------
  // Two histories under the rules as written.

  /** A distinct key per small number. */
  function KeyOf(n: Byte): (k: Pubkey)
    ensures k[0] == n
  {
    [n] + Zeros(KEY_LEN - 1)
  }

  function TestMarket(): Market {
    Market(KeyOf(9), "g", "A", "B", 10000, KeyOf(7), 0, 0, 0, false, Pending, 0, 0, 0, 0, 0)
  }

  /** Two users with 150 and 200 tokens, before any bet. */
  function SwitchStart(): Book {
    Book(TestMarket(), KeyOf(8), TokenAccount(KeyOf(8), 0), [KeyOf(1), KeyOf(2)], [None, None],
         [TokenAccount(KeyOf(1), 150), TokenAccount(KeyOf(2), 200)])
  }

  /**
   * User 0 bets 100 on A, then 50 on B; user 1 bets 200 on B; B wins and
   * user 0 claims first.
   */
  function SwitchHistory(): seq<Call> {
    [ Call(Place(0, TeamA, 100, Vault, 0), 0),
      Call(Place(0, TeamB, 50, Vault, 0), 0),
      Call(Place(1, TeamB, 200, Vault, 0), 0),
      Call(Resolve(KeyOf(9), TeamB), 20801),
      Call(Claim(0, 0), 20801) ]
  }

  /** The book after the first `k` calls of `SwitchHistory`, as the updates each call makes. */
  function SwitchAfter(k: nat): Book
    requires k <= 5
  {
    var x, y, mk := KeyOf(1), KeyOf(2), KeyOf(8);
    var m := TestMarket();
    if k == 0 then SwitchStart()
    else
      var b := SwitchAfter(k - 1);
      if k == 1 then
        b.(market := m.(totalPoolA := 100), vault := TokenAccount(mk, 100),
           bets := b.bets[0 := Some(Bet(x, mk, TeamA, 100, false, 0, 0))],
           wallets := b.wallets[0 := TokenAccount(x, 50)])
      else if k == 2 then
        b.(market := m.(totalPoolA := 100, totalPoolB := 50), vault := TokenAccount(mk, 150),
           bets := b.bets[0 := Some(Bet(x, mk, TeamB, 150, false, 0, 0))],
           wallets := b.wallets[0 := TokenAccount(x, 0)])
      else if k == 3 then
        b.(market := m.(totalPoolA := 100, totalPoolB := 250), vault := TokenAccount(mk, 350),
           bets := b.bets[1 := Some(Bet(y, mk, TeamB, 200, false, 0, 0))],
           wallets := b.wallets[1 := TokenAccount(y, 0)])
      else if k == 4 then
        b.(market := m.(totalPoolA := 100, totalPoolB := 250, isResolved := true, winningOutcome := TeamB,
                        resolvedAt := 20801, totalPayoutPool := 350, winningPool := 250))
      else
        b.(vault := TokenAccount(mk, 144),
           bets := b.bets[0 := Some(Bet(x, mk, TeamB, 150, true, 206, 0))],
           wallets := b.wallets[0 := TokenAccount(x, 206)])
  }

  lemma DistinctKeys(p: Byte, q: Byte)
    requires p != q
    ensures KeyOf(p) != KeyOf(q)
  {
    assert KeyOf(p)[0] != KeyOf(q)[0];
  }

  /** A call that applies cleanly moves the book to the state it produced. */
  lemma StepOk(rules: Rules, b: Book, c: Call, b': Book)
    requires WellFormed(b) && ValidCall(b, c) && Apply(rules, b, c) == Ok(b')
    ensures WellFormed(b') && Step(rules, b, c) == b'
  {
    ApplyWellFormed(rules, b, c);
  }

  /** Running the rest of a history from a call whose effect is known. */
  lemma RunLink(rules: Rules, b: Book, calls: seq<Call>, k: nat, b': Book)
    requires WellFormed(b) && k < |calls| && ValidCall(b, calls[k]) && Apply(rules, b, calls[k]) == Ok(b')
    ensures WellFormed(b')
    ensures Run(rules, b, calls[k..]) == Run(rules, b', calls[k + 1..])
  {
    ApplyWellFormed(rules, b, calls[k]);
    assert calls[k..][0] == calls[k];
    assert calls[k..][1..] == calls[k + 1..];
  }

  lemma SwitchStartInitial()
    ensures Initial(SwitchStart())
  {
    DistinctKeys(1, 2);
    DistinctKeys(1, 8);
    DistinctKeys(2, 8);
    var b := SwitchStart();
    assert b.wallets[..1][..0] == [];
    assert SumAmounts(b.wallets) == 350;
    assert WellFormed(b);
  }

  /** What each instruction of `SwitchHistory` returns, on the accounts it is given. */
  lemma SwitchInstruction1()
    ensures PlaceBet.Place(TestMarket(), KeyOf(8), ZeroBet, 0, KeyOf(1), TokenAccount(KeyOf(1), 150),
                           TokenAccount(KeyOf(8), 0), TeamA, 100, 0)
      == Ok(PlaceBet.Placed(TestMarket().(totalPoolA := 100), Bet(KeyOf(1), KeyOf(8), TeamA, 100, false, 0, 0),
                            TokenAccount(KeyOf(1), 50), TokenAccount(KeyOf(8), 100),
                            BetPlaced(KeyOf(1), KeyOf(8), TeamA, 100)))
  {
  }

  lemma SwitchInstruction2()
    ensures PlaceBet.Place(TestMarket().(totalPoolA := 100), KeyOf(8), Bet(KeyOf(1), KeyOf(8), TeamA, 100, false, 0, 0),
                           0, KeyOf(1), TokenAccount(KeyOf(1), 50), TokenAccount(KeyOf(8), 100), TeamB, 50, 0)
      == Ok(PlaceBet.Placed(TestMarket().(totalPoolA := 100, totalPoolB := 50),
                            Bet(KeyOf(1), KeyOf(8), TeamB, 150, false, 0, 0),
                            TokenAccount(KeyOf(1), 0), TokenAccount(KeyOf(8), 150),
                            BetPlaced(KeyOf(1), KeyOf(8), TeamB, 50)))
  {
  }

  lemma SwitchInstruction3()
    ensures PlaceBet.Place(TestMarket().(totalPoolA := 100, totalPoolB := 50), KeyOf(8), ZeroBet, 0, KeyOf(2),
                           TokenAccount(KeyOf(2), 200), TokenAccount(KeyOf(8), 150), TeamB, 200, 0)
      == Ok(PlaceBet.Placed(TestMarket().(totalPoolA := 100, totalPoolB := 250),
                            Bet(KeyOf(2), KeyOf(8), TeamB, 200, false, 0, 0),
                            TokenAccount(KeyOf(2), 0), TokenAccount(KeyOf(8), 350),
                            BetPlaced(KeyOf(2), KeyOf(8), TeamB, 200)))
  {
  }

  lemma SwitchShares()
    ensures ClaimWinnings.Share(150, 350, 250) == 210 && ClaimWinnings.Share(200, 350, 250) == 280
  {
    assert ClaimWinnings.Share(150, 350, 250) == 210;
    assert ClaimWinnings.Share(200, 350, 250) == 280;
  }

  lemma SwitchClaimFirst()
    ensures ClaimWinnings.Claim(SwitchAfter(4).market, KeyOf(8), Bet(KeyOf(1), KeyOf(8), TeamB, 150, false, 0, 0),
                                KeyOf(1), TokenAccount(KeyOf(8), 350), TokenAccount(KeyOf(1), 0))
      == Ok(ClaimWinnings.Claimed(Bet(KeyOf(1), KeyOf(8), TeamB, 150, true, 206, 0), TokenAccount(KeyOf(8), 144),
                                  TokenAccount(KeyOf(1), 206), WinningsClaimed(KeyOf(1), KeyOf(8), 206)))
  {
    SwitchShares();
  }

  lemma SwitchClaimSecond()
    ensures ClaimWinnings.Claim(SwitchAfter(4).market, KeyOf(8), Bet(KeyOf(2), KeyOf(8), TeamB, 200, false, 0, 0),
                                KeyOf(2), TokenAccount(KeyOf(8), 144), TokenAccount(KeyOf(2), 0))
      == Err(Token(InsufficientFunds))
  {
    SwitchShares();
  }

  lemma SwitchStep1()
    requires WellFormed(SwitchAfter(0))
    ensures ApplyPlace(AsWritten, SwitchAfter(0), 0, TeamA, 100, Vault, 0, 0) == Ok(SwitchAfter(1))
    ensures ValidCall(SwitchAfter(0), SwitchHistory()[0]) && Apply(AsWritten, SwitchAfter(0), SwitchHistory()[0]) == Ok(SwitchAfter(1))
  {
    SwitchInstruction1();
  }

  lemma SwitchStep2()
    requires WellFormed(SwitchAfter(1))
    ensures ApplyPlace(AsWritten, SwitchAfter(1), 0, TeamB, 50, Vault, 0, 0) == Ok(SwitchAfter(2))
    ensures ValidCall(SwitchAfter(1), SwitchHistory()[1]) && Apply(AsWritten, SwitchAfter(1), SwitchHistory()[1]) == Ok(SwitchAfter(2))
  {
    SwitchInstruction2();
  }

  lemma SwitchStep3()
    requires WellFormed(SwitchAfter(2))
    ensures ApplyPlace(AsWritten, SwitchAfter(2), 1, TeamB, 200, Vault, 0, 0) == Ok(SwitchAfter(3))
    ensures ValidCall(SwitchAfter(2), SwitchHistory()[2]) && Apply(AsWritten, SwitchAfter(2), SwitchHistory()[2]) == Ok(SwitchAfter(3))
  {
    var b := SwitchAfter(2);
    assert b.bets[1] == None && b.wallets[1] == TokenAccount(KeyOf(2), 200);
    assert b.vault == TokenAccount(KeyOf(8), 150) && b.market == TestMarket().(totalPoolA := 100, totalPoolB := 50);
    SwitchInstruction3();
  }

  lemma SwitchStep4()
    requires WellFormed(SwitchAfter(3))
    ensures ApplyResolve(SwitchAfter(3), KeyOf(9), TeamB, 20801) == Ok(SwitchAfter(4))
    ensures ValidCall(SwitchAfter(3), SwitchHistory()[3]) && Apply(AsWritten, SwitchAfter(3), SwitchHistory()[3]) == Ok(SwitchAfter(4))
  {
  }

  lemma SwitchStep5()
    requires WellFormed(SwitchAfter(4))
    ensures ApplyClaim(AsWritten, SwitchAfter(4), 0, 0) == Ok(SwitchAfter(5))
    ensures ValidCall(SwitchAfter(4), SwitchHistory()[4]) && Apply(AsWritten, SwitchAfter(4), SwitchHistory()[4]) == Ok(SwitchAfter(5))
  {
    var b := SwitchAfter(4);
    assert b.bets[0] == Some(Bet(KeyOf(1), KeyOf(8), TeamB, 150, false, 0, 0));
    assert b.wallets[0] == TokenAccount(KeyOf(1), 0) && b.vault == TokenAccount(KeyOf(8), 350);
    SwitchClaimFirst();
  }

  lemma SwitchApply(k: nat)
    requires k < 5 && WellFormed(SwitchAfter(k))
    ensures ValidCall(SwitchAfter(k), SwitchHistory()[k])
    ensures Apply(AsWritten, SwitchAfter(k), SwitchHistory()[k]) == Ok(SwitchAfter(k + 1))
  {
    if k == 0 { SwitchStep1(); }
    else if k == 1 { SwitchStep2(); }
    else if k == 2 { SwitchStep3(); }
    else if k == 3 { SwitchStep4(); }
    else { SwitchStep5(); }
  }

  lemma SwitchLink(k: nat)
    requires k < 5 && WellFormed(SwitchAfter(k))
    ensures WellFormed(SwitchAfter(k + 1))
    ensures Run(AsWritten, SwitchAfter(k), SwitchHistory()[k..])
            == Run(AsWritten, SwitchAfter(k + 1), SwitchHistory()[k + 1..])
  {
    SwitchApply(k);
    RunLink(AsWritten, SwitchAfter(k), SwitchHistory(), k, SwitchAfter(k + 1));
  }

  lemma {:induction false} SwitchRunFrom(k: nat)
    requires k <= 5 && WellFormed(SwitchAfter(k))
    ensures Run(AsWritten, SwitchAfter(k), SwitchHistory()[k..]) == SwitchAfter(5)
    decreases 5 - k
  {
    if k < 5 {
      SwitchLink(k);
      SwitchRunFrom(k + 1);
    } else {
      assert SwitchHistory()[k..] == [];
    }
  }

  /** The history runs as written from `SwitchStart` to `SwitchAfter(5)`. */
  lemma SwitchRun()
    ensures WellFormed(SwitchStart()) && Run(AsWritten, SwitchStart(), SwitchHistory()) == SwitchAfter(5)
  {
    SwitchStartInitial();
    assert SwitchHistory()[0..] == SwitchHistory();
    SwitchRunFrom(0);
  }

  lemma SwitchEndWellFormed()
    ensures WellFormed(SwitchAfter(5))
  {
    SwitchStartInitial();
    SwitchRun();
  }

  /**
   * As written, switching sides leaves user 0's first 100 tokens in pool A
   * while they also count as a stake on B: user 0 is paid 206 of the 350,
   * and the vault cannot pay user 1's 275. With `SwitchStartInitial` and
   * `SwitchRun`, every premise of `ClaimAlwaysPaid` holds here.
   */
  lemma SwitchedBetStrandsClaim()
    ensures var b := SwitchAfter(5);
      && WellFormed(b)
      && b.market.isResolved && b.market.winningOutcome == TeamB
      && 2 * b.market.totalPayoutPool <= U64_MAX
      && |b.bets| == 2 && b.bets[1] == Some(Bet(KeyOf(2), KeyOf(8), TeamB, 200, false, 0, 0))
      && b.vault.amount == 144
      && ApplyClaim(AsWritten, b, 1, 1) == Err(Token(InsufficientFunds))
  {
    SwitchEndWellFormed();
    var b := SwitchAfter(5);
    assert b.bets[1] == Some(Bet(KeyOf(2), KeyOf(8), TeamB, 200, false, 0, 0)) && b.wallets[1] == TokenAccount(KeyOf(2), 0);
    assert b.vault == TokenAccount(KeyOf(8), 144) && b.market == SwitchAfter(4).market;
    SwitchClaimSecond();
  }

  /** The corrected placement refuses user 0's switch to B. */
  lemma SwitchRefused()
    ensures WellFormed(SwitchAfter(1))
    ensures Step(Corrected, SwitchStart(), SwitchHistory()[0]) == SwitchAfter(1)
    ensures ValidCall(SwitchAfter(1), SwitchHistory()[1])
      && Apply(Corrected, SwitchAfter(1), SwitchHistory()[1]) == Err(Betting(InvalidOutcome))
  {
    SwitchStartWellFormed();
    SwitchFirstCorrected();
    SwitchSecondCorrected();
  }

  lemma SwitchStartWellFormed()
    ensures WellFormed(SwitchAfter(0))
  {
    SwitchStartInitial();
  }

  lemma SwitchFirstCorrected()
    requires WellFormed(SwitchAfter(0))
    ensures WellFormed(SwitchAfter(1))
    ensures Step(Corrected, SwitchAfter(0), SwitchHistory()[0]) == SwitchAfter(1)
  {
    SwitchStep1();
    SwitchInstruction1();
    assert Apply(Corrected, SwitchAfter(0), SwitchHistory()[0]) == Ok(SwitchAfter(1));
    StepOk(Corrected, SwitchAfter(0), SwitchHistory()[0], SwitchAfter(1));
  }

  lemma SwitchSecondCorrected()
    requires WellFormed(SwitchAfter(1))
    ensures Apply(Corrected, SwitchAfter(1), SwitchHistory()[1]) == Err(Betting(InvalidOutcome))
  {
    var b := SwitchAfter(1);
    assert b.bets[0] == Some(Bet(KeyOf(1), KeyOf(8), TeamA, 100, false, 0, 0));
    var bet := BetAt(b, 0);
    assert bet.amount == 100 && bet.outcome == TeamA;
    assert b.market.startTime == 10000 && !b.market.isResolved;
    assert PlaceBet.PlaceChecked(b.market, b.marketKey, bet, 0, b.users[0], b.wallets[0], b.vault, TeamB, 50, 0)
        == Err(Betting(InvalidOutcome));
  }

  /** Three users with 100 tokens each, before any bet. */
  function DrainStart(): Book {
    Book(TestMarket(), KeyOf(8), TokenAccount(KeyOf(8), 0), [KeyOf(1), KeyOf(2), KeyOf(3)], [None, None, None],
         [TokenAccount(KeyOf(1), 100), TokenAccount(KeyOf(2), 100), TokenAccount(KeyOf(3), 100)])
  }

  /**
   * User 0 bets 100 on A into the vault; user 1 bets 100 on A with user 2's
   * token account passed as the vault, then cancels.
   */
  function DrainHistory(): seq<Call> {
    [ Call(Place(0, TeamA, 100, Vault, 0), 0),
      Call(Place(1, TeamA, 100, Wallet(2), 0), 0),
      Call(Cancel(1, 1), 0) ]
  }

  /** The book after the first `k` calls of `DrainHistory`, as the updates each call makes. */
  function DrainAfter(k: nat): Book
    requires k <= 3
  {
    var v, a, c, mk := KeyOf(1), KeyOf(2), KeyOf(3), KeyOf(8);
    var m := TestMarket();
    if k == 0 then DrainStart()
    else
      var b := DrainAfter(k - 1);
      if k == 1 then
        b.(market := m.(totalPoolA := 100), vault := TokenAccount(mk, 100),
           bets := b.bets[0 := Some(Bet(v, mk, TeamA, 100, false, 0, 0))],
           wallets := b.wallets[0 := TokenAccount(v, 0)])
      else if k == 2 then
        b.(market := m.(totalPoolA := 200),
           bets := b.bets[1 := Some(Bet(a, mk, TeamA, 100, false, 0, 0))],
           wallets := b.wallets[1 := TokenAccount(a, 0)][2 := TokenAccount(c, 200)])
      else
        b.(market := m.(totalPoolA := 100), vault := TokenAccount(mk, 0),
           bets := b.bets[1 := Some(Bet(a, mk, TeamA, 0, true, 0, 0))],
           wallets := b.wallets[1 := TokenAccount(a, 100)])
  }

  lemma DrainStartInitial()
    ensures Initial(DrainStart())
  {
    DistinctKeys(1, 2);
    DistinctKeys(1, 3);
    DistinctKeys(2, 3);
    DistinctKeys(1, 8);
    DistinctKeys(2, 8);
    DistinctKeys(3, 8);
    var b := DrainStart();
    assert b.wallets[..2][..1][..0] == [];
    assert b.wallets[..2][..1] == b.wallets[..1];
    assert SumAmounts(b.wallets[..1]) == 100;
    assert SumAmounts(b.wallets[..2]) == 200;
    assert SumAmounts(b.wallets) == 300;
    assert WellFormed(b);
  }

  lemma DrainInstruction1()
    ensures PlaceBet.Place(TestMarket(), KeyOf(8), ZeroBet, 0, KeyOf(1), TokenAccount(KeyOf(1), 100),
                           TokenAccount(KeyOf(8), 0), TeamA, 100, 0)
      == Ok(PlaceBet.Placed(TestMarket().(totalPoolA := 100), Bet(KeyOf(1), KeyOf(8), TeamA, 100, false, 0, 0),
                            TokenAccount(KeyOf(1), 0), TokenAccount(KeyOf(8), 100), BetPlaced(KeyOf(1), KeyOf(8), TeamA, 100)))
  {
  }

  lemma DrainInstruction2()
    ensures PlaceBet.Place(TestMarket().(totalPoolA := 100), KeyOf(8), ZeroBet, 0, KeyOf(2), TokenAccount(KeyOf(2), 100),
                           TokenAccount(KeyOf(3), 100), TeamA, 100, 0)
      == Ok(PlaceBet.Placed(TestMarket().(totalPoolA := 200), Bet(KeyOf(2), KeyOf(8), TeamA, 100, false, 0, 0),
                            TokenAccount(KeyOf(2), 0), TokenAccount(KeyOf(3), 200), BetPlaced(KeyOf(2), KeyOf(8), TeamA, 100)))
  {
  }

  lemma DrainInstruction3()
    ensures CancelBet.Cancel(TestMarket().(totalPoolA := 200), KeyOf(8), Bet(KeyOf(2), KeyOf(8), TeamA, 100, false, 0, 0),
                             KeyOf(2), TokenAccount(KeyOf(8), 100), TokenAccount(KeyOf(2), 0), 0)
      == Ok(CancelBet.Cancelled(TestMarket().(totalPoolA := 100), Bet(KeyOf(2), KeyOf(8), TeamA, 0, true, 0, 0),
                                TokenAccount(KeyOf(8), 0), TokenAccount(KeyOf(2), 100), BetCancelled(KeyOf(2), KeyOf(8), 100)))
  {
  }

  lemma DrainStep1()
    requires WellFormed(DrainAfter(0))
    ensures ApplyPlace(AsWritten, DrainAfter(0), 0, TeamA, 100, Vault, 0, 0) == Ok(DrainAfter(1))
    ensures ValidCall(DrainAfter(0), DrainHistory()[0]) && Apply(AsWritten, DrainAfter(0), DrainHistory()[0]) == Ok(DrainAfter(1))
  {
    DrainInstruction1();
  }

  lemma DrainStep2()
    requires WellFormed(DrainAfter(1))
    ensures ApplyPlace(AsWritten, DrainAfter(1), 1, TeamA, 100, Wallet(2), 0, 0) == Ok(DrainAfter(2))
    ensures ValidCall(DrainAfter(1), DrainHistory()[1]) && Apply(AsWritten, DrainAfter(1), DrainHistory()[1]) == Ok(DrainAfter(2))
  {
    DrainInstruction2();
  }

  lemma DrainStep3()
    requires WellFormed(DrainAfter(2))
    ensures ApplyCancel(AsWritten, DrainAfter(2), 1, 1, 0) == Ok(DrainAfter(3))
    ensures ValidCall(DrainAfter(2), DrainHistory()[2]) && Apply(AsWritten, DrainAfter(2), DrainHistory()[2]) == Ok(DrainAfter(3))
  {
    var a, mk := KeyOf(2), KeyOf(8);
    var b := DrainAfter(2);
    assert b.bets[1] == Some(Bet(a, mk, TeamA, 100, false, 0, 0));
    assert b.users[1] == a && b.wallets[1] == TokenAccount(a, 0);
    assert b.vault == TokenAccount(mk, 100) && b.market == TestMarket().(totalPoolA := 200);
    DrainInstruction3();
  }

  lemma DrainApply(k: nat)
    requires k < 3 && WellFormed(DrainAfter(k))
    ensures ValidCall(DrainAfter(k), DrainHistory()[k])
    ensures Apply(AsWritten, DrainAfter(k), DrainHistory()[k]) == Ok(DrainAfter(k + 1))
  {
    if k == 0 { DrainStep1(); }
    else if k == 1 { DrainStep2(); }
    else { DrainStep3(); }
  }

  lemma DrainLink(k: nat)
    requires k < 3 && WellFormed(DrainAfter(k))
    ensures WellFormed(DrainAfter(k + 1))
    ensures Run(AsWritten, DrainAfter(k), DrainHistory()[k..])
            == Run(AsWritten, DrainAfter(k + 1), DrainHistory()[k + 1..])
  {
    DrainApply(k);
    RunLink(AsWritten, DrainAfter(k), DrainHistory(), k, DrainAfter(k + 1));
  }

  lemma {:induction false} DrainRunFrom(k: nat)
    requires k <= 3 && WellFormed(DrainAfter(k))
    ensures Run(AsWritten, DrainAfter(k), DrainHistory()[k..]) == DrainAfter(3)
    decreases 3 - k
  {
    if k < 3 {
      DrainLink(k);
      DrainRunFrom(k + 1);
    } else {
      assert DrainHistory()[k..] == [];
    }
  }

  /** The history runs as written from `DrainStart` to `DrainAfter(3)`. */
  lemma DrainRun()
    ensures WellFormed(DrainStart()) && Run(AsWritten, DrainStart(), DrainHistory()) == DrainAfter(3)
  {
    DrainStartInitial();
    assert DrainHistory()[0..] == DrainHistory();
    DrainRunFrom(0);
  }

  lemma DrainEndWellFormed()
    ensures WellFormed(DrainAfter(3))
  {
    DrainStartInitial();
    DrainRun();
  }

  lemma DrainLastCancelFails()
    requires WellFormed(DrainAfter(3))
    ensures ApplyCancel(AsWritten, DrainAfter(3), 0, 0, 0) == Err(Token(InsufficientFunds))
  {
    var b := DrainAfter(3);
    var bet := Bet(KeyOf(1), KeyOf(8), TeamA, 100, false, 0, 0);
    assert b.market == TestMarket().(totalPoolA := 100);
    assert b.vault == TokenAccount(KeyOf(8), 0);
    assert b.bets[0] == Some(bet) && b.users[0] == KeyOf(1);
    EmptyVaultCannotRefund(b.market, b.marketKey, bet, b.wallets[0]);
  }

  /** A cancel that passes its checks fails on an empty vault. */
  lemma EmptyVaultCannotRefund(market: Market, marketKey: Pubkey, bet: Bet, userTokens: TokenAccount)
    requires market == TestMarket().(totalPoolA := 100) && bet.user == KeyOf(1)
    requires bet.outcome == TeamA && bet.amount == 100
    ensures CancelBet.Cancel(market, marketKey, bet, KeyOf(1), TokenAccount(marketKey, 0), userTokens, 0)
            == Err(Token(InsufficientFunds))
  {
    assert Pool(market, TeamA) == 100;
    assert Transfer(TokenAccount(marketKey, 0), userTokens, marketKey, 100) == Err(InsufficientFunds);
  }

  /**
   * As written, a deposit paid into user 2's account still grows pool A, and
   * user 1 then cancels it out of the vault: the vault is empty while pool A
   * holds user 0's 100, user 0 cannot cancel, and users 1 and 2 hold 300 of
   * the 300 tokens. Every premise of `CancelAlwaysRefunds` holds here.
   */
  lemma FakeVaultDrainsRefund()
    ensures var b := DrainAfter(3);
      && WellFormed(b)
      && !b.market.isResolved && b.market.totalPoolA == 100 && b.vault.amount == 0
      && |b.bets| == 3 && b.bets[0] == Some(Bet(KeyOf(1), KeyOf(8), TeamA, 100, false, 0, 0))
      && b.market.startTime - CancelBet.CANCEL_CUTOFF >= I64_MIN && 0 < b.market.startTime - CancelBet.CANCEL_CUTOFF
      && |b.wallets| == 3 && b.wallets[1].amount + b.wallets[2].amount == 300
      && ApplyCancel(AsWritten, b, 0, 0, 0) == Err(Token(InsufficientFunds))
  {
    DrainEndWellFormed();
    DrainLastCancelFails();
  }

  /** The corrected placement refuses the deposit into a user's account. */
  lemma DrainRefused()
    ensures WellFormed(DrainAfter(1))
    ensures Step(Corrected, DrainStart(), DrainHistory()[0]) == DrainAfter(1)
    ensures ValidCall(DrainAfter(1), DrainHistory()[1])
      && Apply(Corrected, DrainAfter(1), DrainHistory()[1]) == Err(Runtime(ConstraintTokenOwner))
  {
    DrainStartInitial();
    DrainFirstCorrected();
    ApplyWellFormed(Corrected, DrainStart(), DrainHistory()[0]);
    DrainSecondCorrected();
  }

  lemma DrainFirstCorrected()
    requires WellFormed(DrainAfter(0))
    ensures Apply(Corrected, DrainAfter(0), DrainHistory()[0]) == Ok(DrainAfter(1))
  {
    DrainInstruction1();
  }

  lemma DrainSecondCorrected()
    requires WellFormed(DrainAfter(1))
    ensures Apply(Corrected, DrainAfter(1), DrainHistory()[1]) == Err(Runtime(ConstraintTokenOwner))
  {
    assert DrainAfter(1).wallets[2].owner == KeyOf(3);
    DistinctKeys(3, 8);
  }
}
