/** Pump multi-hop routes: checking a path of curves and pools hop by hop and deriving
    the accounts of its instruction, and the builder that checks those accounts again.
    Program addresses and associated token accounts are arbitrary functions. */
module PumpRoute {
  import opened Results

  /** A public key, as the number its 32 bytes spell. */
  type Pubkey = int

  const DEFAULT: Pubkey := 0
  const NATIVE: Pubkey := 0x069b8857feab8184fb687f634618c035dac439dc1aeb3b5598a0f00000000000
  const WSOL: Pubkey := 0x069b8857feab8184fb687f634618c035dac439dc1aeb3b5598a0f00000000001
  const TOKEN: Pubkey := 0x06ddf6e1d765a193d9cbe146ceeb79ac1cb485ed5f5b37913a8cf5857eff00a9
  const TOKEN_2022: Pubkey := 0x06ddf6e1ee758fde18425dbce46ccddab61afc4d83b90d27febdf928d8a18bfc
  const PUMP: Pubkey := 0x0156e0f693665acf44db1568bf175baa5189cb97f5d2ff3b655d2bb6fd6d18b0
  const AMM: Pubkey := 0x0c14defc825ec67694250818bb654065f4298d3156d571b4d4f8090c18e9a863
  const FEES: Pubkey := 0x0c35ffa9055a8e568da8f7bc075615274cf1c92ca41f40009c516aa414c27c70

  /** How addresses are derived: from a program, a seed and an optional key; from an
      owner, a mint and its token program; from a pool authority and its two mints. */
  datatype Derivation = Derivation(
    pda: (Pubkey, string, Option<Pubkey>) -> Pubkey,
    ata: (Pubkey, Pubkey, Pubkey) -> Pubkey,
    pool: (Pubkey, Pubkey, Pubkey) -> Pubkey)

  datatype Hop = Hop(
    venue: string, baseMint: Pubkey, quoteMint: Pubkey, address: Pubkey, baseVault: Pubkey, quoteVault: Pubkey,
    baseProgram: Pubkey, quoteProgram: Pubkey, mayhem: bool, cashback: bool, complete: bool, index: int,
    creator: Option<Pubkey>)
  {
    /** The mint and token program a trade enters with; it leaves with the other side's. */
    function Entry(buy: bool): Pubkey {
      if buy then quoteMint else baseMint
    }

    function EntryProgram(buy: bool): Pubkey {
      if buy then quoteProgram else baseProgram
    }

    /** The five addresses every hop contributes. */
    function Field(j: nat): Pubkey {
      match j
      case 0 => baseMint
      case 1 => quoteMint
      case 2 => address
      case 3 => baseVault
      case _ => quoteVault
    }
  }

  datatype Meta = Meta(key: Pubkey, signer: bool, writable: bool)

  /** The named accounts of the multi-hop instruction. */
  datatype Name =
    | User | UserIn | UserOut | GlobalConfig | FeeConfig | UserVolume | BuybackFee | TokenProgram
    | Token2022Program | SystemProgram | EventAuthority | Program | PumpProgram | PumpGlobal
    | PumpFeeConfig | PumpEventAuthority

  /** The accounts of a route by name, and what its hops add. */
  datatype Route = Route(accounts: map<Name, Pubkey>, remaining: seq<Meta>)

  function NormalizeQuote(mint: Pubkey): Pubkey {
    if mint == DEFAULT || mint == NATIVE then WSOL else mint
  }

  function NormalizeHop(h: Hop): Hop {
    var quote := NormalizeQuote(h.quoteMint);
    h.(quoteMint := quote, quoteProgram := if quote == WSOL then TOKEN else h.quoteProgram)
  }

  function Normalize(hops: seq<Hop>): seq<Hop> {
    seq(|hops|, i requires 0 <= i < |hops| => NormalizeHop(hops[i]))
  }

  /** The hop's accounts are the canonical ones of its venue. */
  predicate Canonical(d: Derivation, h: Hop) {
    if h.venue == "curve" then
      var curve := d.pda(PUMP, "bonding-curve", Some(h.baseMint));
      && !h.complete && h.address == curve
      && h.baseVault == d.ata(curve, h.baseMint, h.baseProgram)
      && h.quoteVault == d.ata(curve, h.quoteMint, h.quoteProgram)
    else
      var authority := d.pda(PUMP, "pool-authority", Some(h.baseMint));
      && h.venue == "pool" && h.index == 0 && h.creator == Some(authority)
      && h.address == d.pool(authority, h.baseMint, h.quoteMint)
  }

  function HopMetas(h: Hop): seq<Meta> {
    seq(5, j requires 0 <= j < 5 => Meta(h.Field(j), false, j >= 2))
  }

  /** Where a walk over the hops stands: the mint in hand and the direction so far. */
  datatype State = State(current: Pubkey, side: Option<bool>)

  /** One hop of the walk. */
  function Step(d: Derivation, hops: seq<Hop>, i: nat, s: State): Result<State>
    requires i < |hops|
  {
    var h := hops[i];
    var buy := s.current == h.quoteMint;
    if h.mayhem || h.baseMint == h.quoteMint then Err(InvalidVenue)
    else if !buy && s.current != h.baseMint then Err(Discontinuous)
    else if s.side.Some? && s.side.value != buy then Err(MixedDirection)
    else if h.cashback && i != (if buy then 0 else |hops| - 1) then Err(MisplacedCashback)
    else if !Canonical(d, h) then Err(InvalidVenue)
    else Ok(State(h.Entry(!buy), Some(buy)))
  }

  function Walk(d: Derivation, hops: seq<Hop>, i: nat, s: State): Result<State>
    requires i <= |hops|
    decreases |hops| - i
  {
    if i == |hops| then Ok(s)
    else
      var next :- Step(d, hops, i, s);
      Walk(d, hops, i + 1, next)
  }

  /** What the hops contribute, five accounts each. */
  function Remaining(hops: seq<Hop>): seq<Meta> {
    seq(5 * |hops|, k requires 0 <= k < 5 * |hops| => HopMetas(hops[k / 5])[k % 5])
  }

  /** The account a route passes under each name. */
  function Account(
    d: Derivation, user: Pubkey, input: Pubkey, output: Pubkey, buyback: Pubkey, hops: seq<Hop>, buy: bool, name: Name):
    Pubkey
    requires 0 < |hops|
  {
    var first, last := hops[0], hops[|hops| - 1];
    var currency := if buy then first else last;
    match name
    case User => user
    case UserIn => d.ata(user, input, first.EntryProgram(buy))
    case UserOut => d.ata(user, output, last.EntryProgram(!buy))
    case GlobalConfig => d.pda(AMM, "global_config", None)
    case FeeConfig => d.pda(FEES, "fee_config", Some(AMM))
    case UserVolume => d.pda(AMM, "user_volume_accumulator", Some(user))
    case BuybackFee => d.ata(buyback, currency.quoteMint, currency.quoteProgram)
    case TokenProgram => TOKEN
    case Token2022Program => TOKEN_2022
    case SystemProgram => DEFAULT
    case EventAuthority => d.pda(AMM, "__event_authority", None)
    case Program => AMM
    case PumpProgram => PUMP
    case PumpGlobal => d.pda(PUMP, "global", None)
    case PumpFeeConfig => d.pda(FEES, "fee_config", Some(PUMP))
    case PumpEventAuthority => d.pda(PUMP, "__event_authority", None)
  }

  const NAMES: set<Name> := {
    User, UserIn, UserOut, GlobalConfig, FeeConfig, UserVolume, BuybackFee, TokenProgram,
    Token2022Program, SystemProgram, EventAuthority, Program, PumpProgram, PumpGlobal, PumpFeeConfig, PumpEventAuthority
  }

  function Accounts(d: Derivation, user: Pubkey, input: Pubkey, output: Pubkey, buyback: Pubkey, hops: seq<Hop>, buy: bool):
    map<Name, Pubkey>
    requires 0 < |hops|
  {
    map name | name in NAMES :: Account(d, user, input, output, buyback, hops, buy, name)
  }

  function Derive(d: Derivation, user: Pubkey, input: Pubkey, output: Pubkey, buyback: Pubkey, given: seq<Hop>, v0: bool):
    Result<Route>
  {
    if |given| == 0 || (|given| >= 4 && !v0) then Err(InvalidRoute)
    else
      var hops := Normalize(given);
      var end :- Walk(d, hops, 0, State(NormalizeQuote(input), None));
      if end.current != NormalizeQuote(output) then Err(WrongOutput)
      else
        var buy := end.side == Some(true);
        Ok(Route(Accounts(d, user, NormalizeQuote(input), NormalizeQuote(output), buyback, hops, buy), Remaining(hops)))
  }

  /** The derivation as a loop that carries the mint in hand, the direction and the
      accounts collected so far. */
  method DeriveAccounts(d: Derivation, user: Pubkey, input: Pubkey, output: Pubkey, buyback: Pubkey, given: seq<Hop>, v0: bool)
    returns (r: Result<Route>)
    ensures r == Derive(d, user, input, output, buyback, given, v0)
  {
    if |given| == 0 || (|given| >= 4 && !v0) {
      return Err(InvalidRoute);
    }
    var hops := Normalize(given);
    var current := NormalizeQuote(input);
    var side: Option<bool> := None;
    var remaining: seq<Meta> := [];
    for i := 0 to |hops|
      invariant Walk(d, hops, 0, State(NormalizeQuote(input), None)) == Walk(d, hops, i, State(current, side))
      invariant side.Some? <==> 0 < i
      invariant remaining == Remaining(hops[..i])
    {
      var h := hops[i];
      if h.mayhem || h.baseMint == h.quoteMint {
        return Err(InvalidVenue);
      }
      var buy := current == h.quoteMint;
      if !buy && current != h.baseMint {
        return Err(Discontinuous);
      }
      if side.Some? && side.value != buy {
        return Err(MixedDirection);
      }
      side := Some(buy);
      if h.cashback && i != (if buy then 0 else |hops| - 1) {
        return Err(MisplacedCashback);
      }
      if !Canonical(d, h) {
        return Err(InvalidVenue);
      }
      remaining := remaining + HopMetas(h);
      RemainingGrows(hops, i);
      current := if buy then h.baseMint else h.quoteMint;
    }
    assert hops[..|hops|] == hops;
    if current != NormalizeQuote(output) {
      return Err(WrongOutput);
    }
    var accounts := Accounts(d, user, NormalizeQuote(input), NormalizeQuote(output), buyback, hops, side == Some(true));
    return Ok(Route(accounts, remaining));
  }

  lemma RemainingGrows(hops: seq<Hop>, i: nat)
    requires i < |hops|
    ensures Remaining(hops[..i + 1]) == Remaining(hops[..i]) + HopMetas(hops[i])
  {
    var more, less := Remaining(hops[..i + 1]), Remaining(hops[..i]);
    forall k | 0 <= k < 5 * (i + 1)
      ensures more[k] == (less + HopMetas(hops[i]))[k]
    {
      if 5 * i <= k {
        assert k / 5 == i && k % 5 == k - 5 * i;
      }
    }
  }

  // ----- which routes are accepted -----

  /** Every spelling of the native currency is traded as wrapped, under the plain token
      program, and nothing else about a hop changes. */
  lemma NormalizeMeaning(h: Hop)
    ensures
      var n := NormalizeHop(h);
      if h.quoteMint == DEFAULT || h.quoteMint == NATIVE || h.quoteMint == WSOL
      then n == h.(quoteMint := WSOL, quoteProgram := TOKEN) else n == h
  {
  }

  /** A canonical hop's address follows from its mints alone, and on a curve its vaults from
      the mints and their programs; completed curves and all but the first pool are out. */
  lemma CanonicalIsUnique(d: Derivation, h: Hop, h': Hop)
    requires Canonical(d, h) && Canonical(d, h') && h.venue == h'.venue
    requires h.baseMint == h'.baseMint && h.quoteMint == h'.quoteMint
    ensures h.address == h'.address
    ensures h.venue == "curve" ==>
      && !h.complete && h.address == d.pda(PUMP, "bonding-curve", Some(h.baseMint))
      && (h.baseProgram == h'.baseProgram && h.quoteProgram == h'.quoteProgram ==>
            h.baseVault == h'.baseVault && h.quoteVault == h'.quoteVault)
    ensures h.venue != "curve" ==>
      && h.venue == "pool" && h.index == 0 && h.creator == Some(d.pda(PUMP, "pool-authority", Some(h.baseMint)))
      && h.address == d.pool(h.creator.value, h.baseMint, h.quoteMint)
  {
  }

  /** Hop `i` trades one way: it is sound, it carries cashback only at the currency end,
      and it leaves with what the next hop enters with. */
  ghost predicate Fits(d: Derivation, hops: seq<Hop>, i: nat, buy: bool)
    requires i < |hops|
  {
    && !hops[i].mayhem && hops[i].baseMint != hops[i].quoteMint && Canonical(d, hops[i])
    && (hops[i].cashback ==> i == if buy then 0 else |hops| - 1)
    && (i + 1 < |hops| ==> hops[i].Entry(!buy) == hops[i + 1].Entry(buy))
  }

  /** The hops lead from one mint to another in one direction. */
  ghost predicate Connects(d: Derivation, from: Pubkey, to: Pubkey, hops: seq<Hop>, buy: bool) {
    && 0 < |hops| && hops[0].Entry(buy) == from && hops[|hops| - 1].Entry(!buy) == to
    && forall i: nat :: i < |hops| ==> Fits(d, hops, i, buy)
  }

  lemma {:induction false} WalkMeaning(d: Derivation, hops: seq<Hop>, i: nat, s: State, to: Pubkey, buy: bool)
    requires i < |hops| && (s.side == Some(buy) || (i == 0 && s.side == None))
    ensures Walk(d, hops, i, s) == Ok(State(to, Some(buy))) <==>
      && s.current == hops[i].Entry(buy) && hops[|hops| - 1].Entry(!buy) == to
      && forall j :: i <= j < |hops| ==> Fits(d, hops, j, buy)
    ensures s.side.Some? && Walk(d, hops, i, s).Ok? ==> Walk(d, hops, i, s).value.side == s.side
    decreases |hops| - i
  {
    hide Canonical;
    var next := Step(d, hops, i, s);
    var rest := forall j :: i + 1 <= j < |hops| ==> Fits(d, hops, j, buy);
    assert (forall j :: i <= j < |hops| ==> Fits(d, hops, j, buy)) <==> Fits(d, hops, i, buy) && rest;
    if next.Ok? && i + 1 < |hops| {
      WalkMeaning(d, hops, i + 1, next.value, to, next.value.side.value);
      if next.value.side.value != buy {
        assert s.current != hops[i].Entry(buy);
      }
    }
  }

  /** A derivation succeeds and its first hop is entered with its currency (a buy) or
      with its base (a sell). */
  ghost predicate DerivesAs(
    d: Derivation, user: Pubkey, input: Pubkey, output: Pubkey, buyback: Pubkey, given: seq<Hop>, v0: bool, buy: bool)
  {
    && Derive(d, user, input, output, buyback, given, v0).Ok?
    && (buy <==> NormalizeQuote(input) == Normalize(given)[0].quoteMint)
  }

  /** A route is derived in a direction exactly when its normalized hops connect the
      normalized ends that way, within the hop budget of the transaction format. */
  lemma DeriveMeaning(
    d: Derivation, user: Pubkey, input: Pubkey, output: Pubkey, buyback: Pubkey, given: seq<Hop>, v0: bool, buy: bool)
    ensures DerivesAs(d, user, input, output, buyback, given, v0, buy) <==>
      && Connects(d, NormalizeQuote(input), NormalizeQuote(output), Normalize(given), buy)
      && (|given| < 4 || v0)
    ensures DerivesAs(d, user, input, output, buyback, given, v0, buy) ==>
      && Derive(d, user, input, output, buyback, given, v0).value.accounts
         == Accounts(d, user, NormalizeQuote(input), NormalizeQuote(output), buyback, Normalize(given), buy)
      && Derive(d, user, input, output, buyback, given, v0).value.remaining == Remaining(Normalize(given))
  {
    hide Accounts, Remaining, Canonical, NormalizeQuote, NormalizeHop;
    if 0 < |given| && (|given| < 4 || v0) {
      var hops := Normalize(given);
      var start := State(NormalizeQuote(input), None);
      WalkMeaning(d, hops, 0, start, NormalizeQuote(output), buy);
      var end := Walk(d, hops, 0, start);
      if end.Ok? {
        SideIsFirst(d, hops, start);
        WalkMeaning(d, hops, 0, start, end.value.current, end.value.side.value);
      }
      hide Walk;
    }
  }

  lemma SideIsFirst(d: Derivation, hops: seq<Hop>, s: State)
    requires 0 < |hops| && s.side == None && Walk(d, hops, 0, s).Ok?
    ensures Walk(d, hops, 0, s).value.side == Some(s.current == hops[0].quoteMint)
  {
    hide Canonical;
    var next := Step(d, hops, 0, s).value;
    if 1 < |hops| {
      WalkMeaning(d, hops, 1, next, 0, next.side.value);
    }
  }

  /** The accounts of a derived route that depend on the programs and the user alone. */
  lemma ProgramAccounts(
    d: Derivation, user: Pubkey, input: Pubkey, output: Pubkey, buyback: Pubkey, given: seq<Hop>, v0: bool, name: Name)
    requires Derive(d, user, input, output, buyback, given, v0).Ok?
    ensures
      var accounts := Derive(d, user, input, output, buyback, given, v0).value.accounts;
      && name in accounts
      && match name
         case GlobalConfig => accounts[name] == d.pda(AMM, "global_config", None)
         case FeeConfig => accounts[name] == d.pda(FEES, "fee_config", Some(AMM))
         case UserVolume => accounts[name] == d.pda(AMM, "user_volume_accumulator", Some(user))
         case EventAuthority => accounts[name] == d.pda(AMM, "__event_authority", None)
         case PumpGlobal => accounts[name] == d.pda(PUMP, "global", None)
         case PumpFeeConfig => accounts[name] == d.pda(FEES, "fee_config", Some(PUMP))
         case PumpEventAuthority => accounts[name] == d.pda(PUMP, "__event_authority", None)
         case User => accounts[name] == user
         case TokenProgram => accounts[name] == TOKEN
         case Token2022Program => accounts[name] == TOKEN_2022
         case SystemProgram => accounts[name] == DEFAULT
         case Program => accounts[name] == AMM
         case PumpProgram => accounts[name] == PUMP
         case _ => true
  {
    hide Walk, Normalize, NormalizeQuote, Remaining;
    AllNames(name);
    hide NAMES;
  }

  function Reversed<T>(s: seq<T>): (r: seq<T>) {
    seq(|s|, i requires 0 <= i < |s| => s[|s| - 1 - i])
  }

  lemma ConnectsBackwards(d: Derivation, from: Pubkey, to: Pubkey, hops: seq<Hop>, buy: bool)
    requires Connects(d, from, to, hops, buy)
    ensures 0 < |hops| && Connects(d, to, from, Reversed(hops), !buy)
  {
    hide Canonical;
    var back, opposite := Reversed(hops), !buy;
    forall i: nat | i < |back|
      ensures Fits(d, back, i, opposite)
    {
      var j := |hops| - 1 - i;
      assert Fits(d, hops, j, buy);
      if 0 < j {
        assert Fits(d, hops, j - 1, buy);
      }
    }
  }

  lemma AllNames(name: Name)
    ensures name in NAMES
  {
  }

  lemma ReversedAccounts(
    d: Derivation, user: Pubkey, input: Pubkey, output: Pubkey, buyback: Pubkey, hops: seq<Hop>, buy: bool)
    requires 0 < |hops|
    ensures
      var there := Accounts(d, user, input, output, buyback, hops, buy);
      && UserIn in there && UserOut in there
      && Accounts(d, user, output, input, buyback, Reversed(hops), !buy)
         == there[UserIn := there[UserOut]][UserOut := there[UserIn]]
  {
    var there := Accounts(d, user, input, output, buyback, hops, buy);
    var back := Accounts(d, user, output, input, buyback, Reversed(hops), !buy);
    AllNames(UserIn);
    AllNames(UserOut);
    assert back == there[UserIn := there[UserOut]][UserOut := there[UserIn]] by {
      hide NAMES;
    }
  }

  /** The five accounts of the `i`th hop. */
  function Block(metas: seq<Meta>, i: nat): seq<Meta>
    requires 5 * i + 5 <= |metas|
  {
    metas[5 * i..5 * i + 5]
  }

  lemma BlockIsHop(hops: seq<Hop>, i: nat)
    requires i < |hops|
    ensures Block(Remaining(hops), i) == HopMetas(hops[i])
  {
    forall j | 0 <= j < 5
      ensures Block(Remaining(hops), i)[j] == HopMetas(hops[i])[j]
    {
      assert (5 * i + j) / 5 == i && (5 * i + j) % 5 == j;
    }
  }

  lemma ReversedRemaining(hops: seq<Hop>)
    ensures |Remaining(Reversed(hops))| == |Remaining(hops)| == 5 * |hops|
    ensures forall i: nat :: i < |hops| ==>
      Block(Remaining(Reversed(hops)), i) == Block(Remaining(hops), |hops| - 1 - i)
  {
    forall i: nat | i < |hops|
      ensures Block(Remaining(Reversed(hops)), i) == Block(Remaining(hops), |hops| - 1 - i)
    {
      BlockIsHop(Reversed(hops), i);
      BlockIsHop(hops, |hops| - 1 - i);
    }
  }

  /** A route from one mint to another is derived as a buy exactly when the reversed hops
      are derived as a sell the other way, and then only the user's two accounts change
      places and the five-account blocks of the hops come in reverse order. */
  lemma ReversedRoute(
    d: Derivation, user: Pubkey, input: Pubkey, output: Pubkey, buyback: Pubkey, given: seq<Hop>, v0: bool, buy: bool)
    ensures DerivesAs(d, user, input, output, buyback, given, v0, buy)
            <==> DerivesAs(d, user, output, input, buyback, Reversed(given), v0, !buy)
    ensures DerivesAs(d, user, input, output, buyback, given, v0, buy) ==>
      var there := Derive(d, user, input, output, buyback, given, v0).value;
      var back := Derive(d, user, output, input, buyback, Reversed(given), v0).value;
      && UserIn in there.accounts && UserOut in there.accounts
      && back.accounts == there.accounts[UserIn := there.accounts[UserOut]][UserOut := there.accounts[UserIn]]
      && |back.remaining| == |there.remaining| == 5 * |given|
      && forall i: nat :: i < |given| ==> Block(back.remaining, i) == Block(there.remaining, |given| - 1 - i)
  {
    hide Derive, Connects, Accounts, Remaining;
    var hops, back := Normalize(given), Normalize(Reversed(given));
    var a, b := NormalizeQuote(input), NormalizeQuote(output);
    hide NormalizeQuote, NormalizeHop;
    assert back == Reversed(hops) && hops == Reversed(back);
    DeriveMeaning(d, user, input, output, buyback, given, v0, buy);
    DeriveMeaning(d, user, output, input, buyback, Reversed(given), v0, !buy);
    if Connects(d, a, b, hops, buy) {
      ConnectsBackwards(d, a, b, hops, buy);
      ReversedAccounts(d, user, a, b, buyback, hops, buy);
      ReversedRemaining(hops);
    }
    if Connects(d, b, a, back, !buy) {
      ConnectsBackwards(d, b, a, back, !buy);
    }
  }
}
