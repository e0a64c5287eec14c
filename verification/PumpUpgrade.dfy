/** The builder of Pump upgrade instructions: it checks arguments, named accounts and
    the flags of the remaining accounts, and lists the keys of the instruction. */
module PumpUpgrade {
  import opened Results
  import opened Rounding
  import opened Bytes
  import opened PumpRoute

  datatype AccountSpec<N> = AccountSpec(name: N, signer: bool, writable: bool)

  /** What the builder knows of an instruction. */
  datatype Spec<N> = Spec(
    program: Pubkey, discriminator: seq<Byte>, args: nat, partialFill: bool, multiHop: bool,
    accounts: seq<AccountSpec<N>>)

  datatype Instruction = Instruction(program: Pubkey, data: seq<Byte>, keys: seq<Meta>)

  const MULTI_HOP: Spec<Name> := Spec(AMM, [43, 100, 73, 19, 233, 246, 111, 148], 2, false, true, [
    AccountSpec(User, true, true),
    AccountSpec(UserIn, false, true),
    AccountSpec(UserOut, false, true),
    AccountSpec(GlobalConfig, false, false),
    AccountSpec(FeeConfig, false, false),
    AccountSpec(UserVolume, false, true),
    AccountSpec(BuybackFee, false, true),
    AccountSpec(TokenProgram, false, false),
    AccountSpec(Token2022Program, false, false),
    AccountSpec(SystemProgram, false, false),
    AccountSpec(EventAuthority, false, false),
    AccountSpec(Program, false, false),
    AccountSpec(PumpProgram, false, false),
    AccountSpec(PumpGlobal, false, false),
    AccountSpec(PumpFeeConfig, false, false),
    AccountSpec(PumpEventAuthority, false, false)
  ])

  predicate AmountsFit(amounts: seq<int>) {
    forall i :: 0 <= i < |amounts| ==> 0 <= amounts[i] <= U64
  }

  /** The amounts as consecutive 64-bit numbers. */
  function Packed(amounts: seq<int>): (bytes: seq<Byte>)
    requires AmountsFit(amounts)
    ensures |bytes| == 8 * |amounts|
  {
    if amounts == [] then []
    else Packed(amounts[..|amounts| - 1]) + Encode(amounts[|amounts| - 1], 8)
  }

  function Flag(partialFill: Option<bool>): seq<Byte> {
    match partialFill
    case None => []
    case Some(flag) => [if flag then 1 else 0]
  }

  /** Every named account is given. */
  predicate AllGiven<N(==)>(specs: seq<AccountSpec<N>>, accounts: map<N, Pubkey>) {
    forall i :: 0 <= i < |specs| ==> specs[i].name in accounts
  }

  function Keys<N(==)>(specs: seq<AccountSpec<N>>, accounts: map<N, Pubkey>): seq<Meta>
    requires AllGiven(specs, accounts)
  {
    seq(|specs|, i requires 0 <= i < |specs| => Meta(accounts[specs[i].name], specs[i].signer, specs[i].writable))
  }

  /** No remaining account signs, and each block of five is writable from its third on. */
  predicate FlagsFit(remaining: seq<Meta>) {
    forall i :: 0 <= i < |remaining| ==> !remaining[i].signer && remaining[i].writable == (i % 5 >= 2)
  }

  function Build<N(==)>(
    spec: Spec<N>, accounts: map<N, Pubkey>, amounts: seq<int>, partialFill: Option<bool>, remaining: seq<Meta>):
    Result<Instruction>
  {
    if |amounts| != spec.args || !AmountsFit(amounts) then Err(OutsideUnsignedRange)
    else if 0 < |amounts| && amounts[0] == 0 then Err(InvalidLimit)
    else if spec.multiHop && (|amounts| < 2 || amounts[1] == 0 || |remaining| < 5 || |remaining| % 5 != 0) then
      Err(InvalidRoute)
    else if !spec.multiHop && remaining != [] then Err(InvalidRoute)
    else if partialFill.Some? && !spec.partialFill then Err(InvalidLimit)
    else if !AllGiven(spec.accounts, accounts) then Err(MissingAccount)
    else if !FlagsFit(remaining) then Err(InvalidFlags)
    else
      Ok(Instruction(
        spec.program, spec.discriminator + Packed(amounts) + Flag(partialFill), Keys(spec.accounts, accounts) + remaining))
  }

  method CheckAmounts(amounts: seq<int>) returns (ok: bool)
    ensures ok <==> AmountsFit(amounts)
  {
    for i := 0 to |amounts|
      invariant AmountsFit(amounts[..i])
    {
      if !(0 <= amounts[i] <= U64) {
        return false;
      }
    }
    return true;
  }

  /** Collects the keys of the named accounts, stopping at a missing one. */
  method CollectKeys<N(==)>(specs: seq<AccountSpec<N>>, accounts: map<N, Pubkey>) returns (ok: bool, keys: seq<Meta>)
    ensures ok <==> AllGiven(specs, accounts)
    ensures ok ==> keys == Keys(specs, accounts)
  {
    keys := [];
    for i := 0 to |specs|
      invariant AllGiven(specs[..i], accounts)
      invariant keys == Keys(specs[..i], accounts)
    {
      var a := specs[i];
      if a.name !in accounts {
        return false, keys;
      }
      keys := keys + [Meta(accounts[a.name], a.signer, a.writable)];
    }
    assert specs[..|specs|] == specs;
    return true, keys;
  }

  /** Stops at the first wrong flag. */
  method CheckFlags(remaining: seq<Meta>) returns (ok: bool)
    ensures ok <==> FlagsFit(remaining)
  {
    for i := 0 to |remaining|
      invariant FlagsFit(remaining[..i])
    {
      if remaining[i].signer || remaining[i].writable != (i % 5 >= 2) {
        return false;
      }
    }
    return true;
  }

  method PackData(discriminator: seq<Byte>, amounts: seq<int>, partialFill: Option<bool>) returns (data: seq<Byte>)
    requires AmountsFit(amounts)
    ensures data == discriminator + Packed(amounts) + Flag(partialFill)
  {
    data := discriminator;
    for i := 0 to |amounts|
      invariant data == discriminator + Packed(amounts[..i])
    {
      assert amounts[..i + 1][..i] == amounts[..i];
      data := data + Encode(amounts[i], 8);
    }
    assert amounts[..|amounts|] == amounts;
    if partialFill.Some? {
      data := data + [if partialFill.value then 1 else 0];
    }
  }

  /** The builder, with a loop for each of its checks and lists. */
  method BuildInstruction<N(==)>(
    spec: Spec<N>, accounts: map<N, Pubkey>, amounts: seq<int>, partialFill: Option<bool>, remaining: seq<Meta>)
    returns (r: Result<Instruction>)
    ensures r == Build(spec, accounts, amounts, partialFill, remaining)
  {
    hide AmountsFit, AllGiven, FlagsFit, Keys, Packed, Flag;
    var amountsOk := CheckAmounts(amounts);
    if |amounts| != spec.args || !amountsOk {
      return Err(OutsideUnsignedRange);
    }
    if 0 < |amounts| && amounts[0] == 0 {
      return Err(InvalidLimit);
    }
    if spec.multiHop {
      if |amounts| < 2 || amounts[1] == 0 || |remaining| < 5 || |remaining| % 5 != 0 {
        return Err(InvalidRoute);
      }
    } else if remaining != [] {
      return Err(InvalidRoute);
    }
    if partialFill.Some? && !spec.partialFill {
      return Err(InvalidLimit);
    }
    var given, keys := CollectKeys(spec.accounts, accounts);
    if !given {
      return Err(MissingAccount);
    }
    var flagsOk := CheckFlags(remaining);
    if !flagsOk {
      return Err(InvalidFlags);
    }
    var data := PackData(spec.discriminator, amounts, partialFill);
    return Ok(Instruction(spec.program, data, keys + remaining));
  }

  lemma {:induction false} PackedIsInjective(a: seq<int>, b: seq<int>)
    requires AmountsFit(a) && AmountsFit(b) && |a| == |b| && Packed(a) == Packed(b)
    ensures a == b
  {
    if a != [] {
      var n := |a| - 1;
      var head, head' := Packed(a[..n]), Packed(b[..n]);
      assert Packed(a)[..8 * n] == head && Packed(b)[..8 * n] == head';
      assert Packed(a)[8 * n..] == Encode(a[n], 8) && Packed(b)[8 * n..] == Encode(b[n], 8);
      PackedIsInjective(a[..n], b[..n]);
      EightBytes();
      DecodeEncode(a[n], 8);
      DecodeEncode(b[n], 8);
      assert a == a[..n] + [a[n]] && b == b[..n] + [b[n]];
    }
  }

  lemma EightBytes()
    ensures Power(256, 8) == U64 + 1
  {
    assert Power(256, 4) == 0x1_0000_0000;
  }

  /** The data of an instruction determines its amounts and its partial-fill choice. */
  lemma DataDeterminesArguments<N>(
    spec: Spec<N>, accounts: map<N, Pubkey>, accounts': map<N, Pubkey>, amounts: seq<int>, amounts': seq<int>,
    partialFill: Option<bool>, partialFill': Option<bool>, remaining: seq<Meta>, remaining': seq<Meta>)
    requires Build(spec, accounts, amounts, partialFill, remaining).Ok?
    requires Build(spec, accounts', amounts', partialFill', remaining').Ok?
    requires Build(spec, accounts, amounts, partialFill, remaining).value.data
          == Build(spec, accounts', amounts', partialFill', remaining').value.data
    ensures amounts == amounts' && partialFill == partialFill'
  {
    hide FlagsFit, AllGiven, Keys, Packed;
    var d, n := spec.discriminator, 8 * |amounts|;
    var data := Build(spec, accounts, amounts, partialFill, remaining).value.data;
    assert data == d + Packed(amounts) + Flag(partialFill) == d + Packed(amounts') + Flag(partialFill');
    assert data[|d|..|d| + n] == Packed(amounts) == Packed(amounts');
    assert data[|d| + n..] == Flag(partialFill) == Flag(partialFill');
    PackedIsInjective(amounts, amounts');
  }

  /** Whatever the route, its accounts pass the builder exactly when both amounts are
      positive and in range; the user is then the only signer, and each hop adds two
      read-only and three writable accounts. */
  lemma DerivedRouteBuilds(
    d: Derivation, user: Pubkey, input: Pubkey, output: Pubkey, buyback: Pubkey, given: seq<Hop>, v0: bool,
    amount: int, limit: int)
    requires Derive(d, user, input, output, buyback, given, v0).Ok?
    ensures
      var route := Derive(d, user, input, output, buyback, given, v0).value;
      var built := Build(MULTI_HOP, route.accounts, [amount, limit], None, route.remaining);
      && (built.Ok? <==> 0 < amount <= U64 && 0 < limit <= U64)
      && (built.Ok? ==>
            && |built.value.keys| == 16 + 5 * |given|
            && built.value.keys[0].key == user
            && forall i :: 0 <= i < |built.value.keys| ==> (built.value.keys[i].signer <==> i == 0))
  {
    hide Walk;
    var route := Derive(d, user, input, output, buyback, given, v0).value;
    forall i | 0 <= i < |route.remaining|
      ensures !route.remaining[i].signer && route.remaining[i].writable == (i % 5 >= 2)
    {
    }
  }

  lemma PackedAppends(amounts: seq<int>)
    requires AmountsFit(amounts) && amounts != []
    ensures Packed(amounts) == Packed(amounts[..|amounts| - 1]) + Encode(amounts[|amounts| - 1], 8)
  {
    hide Encode;
  }

  lemma Slices<T>(a: seq<T>, b: seq<T>, n: nat)
    requires |a| == 8 * n && |b| == 8
    ensures (a + b)[..8 * n] == a && (a + b)[8 * n..8 * n + 8] == b
  {
  }

  lemma PackedParts(amounts: seq<int>)
    requires AmountsFit(amounts) && amounts != []
    ensures
      var n := |amounts| - 1;
      Packed(amounts)[..8 * n] == Packed(amounts[..n]) && Packed(amounts)[8 * n..8 * n + 8] == Encode(amounts[n], 8)
  {
    hide Encode, Packed;
    var n := |amounts| - 1;
    PackedAppends(amounts);
    Slices(Packed(amounts[..n]), Encode(amounts[n], 8), n);
  }

  lemma {:induction false} PackedDecodes(amounts: seq<int>, i: nat)
    requires AmountsFit(amounts) && i < |amounts|
    ensures Decode(Packed(amounts)[8 * i..8 * i + 8]) == amounts[i]
  {
    hide Packed, Encode, Decode, Power;
    var n := |amounts| - 1;
    PackedParts(amounts);
    if i < n {
      PackedDecodes(amounts[..n], i);
      assert Packed(amounts)[8 * i..8 * i + 8] == Packed(amounts)[..8 * n][8 * i..8 * i + 8];
    } else {
      EightBytes();
      DecodeEncode(amounts[n], 8);
    }
  }

  /** An instruction is built exactly from the right number of u64 amounts, the first one
      positive, with every named account given; a multi-hop one also takes a positive second
      amount and blocks of five remaining accounts with no signer and the last three of each
      block writable, and no other takes any. */
  lemma BuildAccepts<N>(
    spec: Spec<N>, accounts: map<N, Pubkey>, amounts: seq<int>, partialFill: Option<bool>, remaining: seq<Meta>)
    ensures Build(spec, accounts, amounts, partialFill, remaining).Ok? <==>
      && |amounts| == spec.args && (forall i :: 0 <= i < |amounts| ==> 0 <= amounts[i] <= U64)
      && (0 < |amounts| ==> 0 < amounts[0])
      && (forall i :: 0 <= i < |spec.accounts| ==> spec.accounts[i].name in accounts)
      && (partialFill.Some? ==> spec.partialFill)
      && (forall i :: 0 <= i < |remaining| ==> !remaining[i].signer && (remaining[i].writable <==> 2 <= i % 5))
      && if spec.multiHop then 2 <= |amounts| && 0 < amounts[1] && 5 <= |remaining| && |remaining| % 5 == 0
         else remaining == []
  {
    hide Packed, Keys;
  }

  /** An instruction carries its program, the discriminator, every amount as eight bytes, the
      partial-fill choice as one more byte if there is one, and the keys of the named accounts
      with their own flags before the remaining ones. */
  lemma InstructionMeaning<N>(
    spec: Spec<N>, accounts: map<N, Pubkey>, amounts: seq<int>, partialFill: Option<bool>, remaining: seq<Meta>, i: nat)
    requires Build(spec, accounts, amounts, partialFill, remaining).Ok?
    ensures
      var built, d, n := Build(spec, accounts, amounts, partialFill, remaining).value, |spec.discriminator|, |amounts|;
      && built.program == spec.program && n == spec.args
      && |built.data| == d + 8 * n + (if partialFill.Some? then 1 else 0)
      && built.data[..d] == spec.discriminator
      && (i < n ==> Decode(built.data[d + 8 * i..d + 8 * i + 8]) == amounts[i])
      && (partialFill.Some? ==> spec.partialFill && built.data[d + 8 * n] == if partialFill.value then 1 else 0)
      && |built.keys| == |spec.accounts| + |remaining|
      && (i < |spec.accounts| ==>
            var a := spec.accounts[i];
            a.name in accounts && built.keys[i] == Meta(accounts[a.name], a.signer, a.writable))
      && built.keys[|spec.accounts|..] == remaining
  {
    hide Packed, FlagsFit;
    var built, d := Build(spec, accounts, amounts, partialFill, remaining).value, |spec.discriminator|;
    if i < |amounts| {
      PackedDecodes(amounts, i);
      assert built.data[d + 8 * i..d + 8 * i + 8] == Packed(amounts)[8 * i..8 * i + 8];
    }
  }

  /** The instruction of a derived route carries both amounts, and the user's two token
      accounts on the sides the route enters and leaves with, and the buyback account of the
      currency. */
  lemma DerivedInstruction(
    d: Derivation, user: Pubkey, input: Pubkey, output: Pubkey, buyback: Pubkey, given: seq<Hop>, v0: bool,
    amount: int, limit: int)
    requires Derive(d, user, input, output, buyback, given, v0).Ok? && 0 < amount <= U64 && 0 < limit <= U64
    ensures
      var route := Derive(d, user, input, output, buyback, given, v0).value;
      var built := Build(MULTI_HOP, route.accounts, [amount, limit], None, route.remaining);
      var a, b, hops := NormalizeQuote(input), NormalizeQuote(output), Normalize(given);
      && 0 < |hops| && built.Ok? && built.value.program == AMM && |built.value.data| == 24
      && Decode(built.value.data[8..16]) == amount && Decode(built.value.data[16..24]) == limit
      && 16 <= |built.value.keys|
      && var first, last := hops[0], hops[|hops| - 1];
      var buy := a == first.quoteMint;
      var currency := if buy then first else last;
      && built.value.keys[0] == Meta(user, true, true)
      && built.value.keys[1] == Meta(d.ata(user, a, if buy then first.quoteProgram else first.baseProgram), false, true)
      && built.value.keys[2] == Meta(d.ata(user, b, if buy then last.baseProgram else last.quoteProgram), false, true)
      && built.value.keys[6] == Meta(d.ata(buyback, currency.quoteMint, currency.quoteProgram), false, true)
  {
    hide Walk, Packed, Canonical, FlagsFit, NormalizeHop, NormalizeQuote, Remaining, Decode;
    DerivedRouteBuilds(d, user, input, output, buyback, given, v0, amount, limit);
    var route := Derive(d, user, input, output, buyback, given, v0).value;
    SideIsFirst(d, Normalize(given), State(NormalizeQuote(input), None));
    InstructionMeaning(MULTI_HOP, route.accounts, [amount, limit], None, route.remaining, 0);
    InstructionMeaning(MULTI_HOP, route.accounts, [amount, limit], None, route.remaining, 1);
    InstructionMeaning(MULTI_HOP, route.accounts, [amount, limit], None, route.remaining, 2);
    InstructionMeaning(MULTI_HOP, route.accounts, [amount, limit], None, route.remaining, 6);
    hide Build;
  }

  /** Of the sixteen named accounts, all of them different, only the user signs; the user's own
      and the buyback account are writable. */
  lemma MultiHopLayout(i: nat, j: nat)
    requires i < j < 16
    ensures |MULTI_HOP.accounts| == 16 && MULTI_HOP.accounts[i].name != MULTI_HOP.accounts[j].name
    ensures !MULTI_HOP.accounts[j].signer && (MULTI_HOP.accounts[i].signer <==> i == 0)
    ensures MULTI_HOP.accounts[i].writable <==> i in {0, 1, 2, 5, 6}
    ensures MULTI_HOP.accounts[j].writable <==> j in {1, 2, 5, 6}
  {
  }

  /** Behind the named accounts come five addresses of every hop, its mints read-only and its
      own accounts writable. */
  lemma DerivedBlocks(
    d: Derivation, user: Pubkey, input: Pubkey, output: Pubkey, buyback: Pubkey, given: seq<Hop>, v0: bool,
    amount: int, limit: int, i: nat)
    requires Derive(d, user, input, output, buyback, given, v0).Ok? && 0 < amount <= U64 && 0 < limit <= U64
    requires i < |given|
    ensures
      var route := Derive(d, user, input, output, buyback, given, v0).value;
      var built := Build(MULTI_HOP, route.accounts, [amount, limit], None, route.remaining);
      var hop := Normalize(given)[i];
      && built.Ok? && |built.value.keys| == 16 + 5 * |given|
      && built.value.keys[16 + 5 * i..16 + 5 * i + 5] == [
           Meta(hop.baseMint, false, false), Meta(hop.quoteMint, false, false),
           Meta(hop.address, false, true), Meta(hop.baseVault, false, true), Meta(hop.quoteVault, false, true)]
  {
    hide Walk, Packed, Canonical, FlagsFit, Accounts, NormalizeHop, NormalizeQuote;
    DerivedRouteBuilds(d, user, input, output, buyback, given, v0, amount, limit);
    var route := Derive(d, user, input, output, buyback, given, v0).value;
    InstructionMeaning(MULTI_HOP, route.accounts, [amount, limit], None, route.remaining, 0);
    hide Build;
    BlockIsHop(Normalize(given), i);
    var keys := Build(MULTI_HOP, route.accounts, [amount, limit], None, route.remaining).value.keys;
    assert keys[16 + 5 * i..16 + 5 * i + 5] == route.remaining[5 * i..5 * i + 5];
  }
}
