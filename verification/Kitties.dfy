/**
 The kitties pallet as a state machine on values: its storage, what each call does to it,
 and runs of the chain.
 */
module Kitties {
  import opened Base
  import opened Genetics
  import Nft
  import Currency
  import Difficulty

  datatype Event =
    | KittyCreated(owner: Account, id: TokenId, dna: Dna)
    | KittyBred(owner: Account, id: TokenId, dna: Dna)
    | KittyTransferred(from: Account, to: Account, id: TokenId)
    | KittyPriceUpdated(owner: Account, id: TokenId, price: Option<Balance>)
    | KittySold(from: Account, to: Account, id: TokenId, paid: Balance)

  /** Chain constants, and the hash function, of which nothing is assumed. */
  datatype Config = Config(
    difficulty: Difficulty.Level,
    existentialDeposit: Balance,
    blake: Difficulty.Payload -> Bytes16)

  /** `log` is the concatenation of the events of all blocks so far. */
  datatype State = State(
    classId: ClassId,
    nft: Nft.Storage,
    prices: map<TokenId, Balance>,
    balances: Currency.Balances,
    nonce: U32,
    log: seq<Event>)

  datatype Call =
    | Create
    | Breed(id1: TokenId, id2: TokenId)
    | Transfer(to: Account, id: TokenId)
    | SetPrice(id: TokenId, newPrice: Option<Balance>)
    | Buy(owner: Account, id: TokenId, maxPrice: Balance)
    | AutoBreed(id1: TokenId, id2: TokenId, nonce: U32, solution: U128)

  datatype Origin = Signed(who: Account) | Root | NoOrigin

  /** Storage after a call, and the call's result. */
  datatype Outcome = Outcome(state: State, result: Result<()>)

  datatype Validity = Valid | BadProof | NotUnsigned

  function Failed(s: State, e: Error): Outcome {
    Outcome(s, Err(e))
  }

  function Emitted(s: State, e: Event): Outcome {
    Outcome(s.(log := s.log + [e]), Ok(()))
  }

  // ----- Calls -----

  function KittyOf(s: State, owner: Account, id: TokenId): Option<Dna> {
    var key := (s.classId, id);
    if key in s.nft.tokens && s.nft.tokens[key].owner == owner then Some(s.nft.tokens[key].dna) else None
  }

  function CreateCall(s: State, sender: Account, random: Dna): Outcome {
    match Nft.Mint(s.nft, sender, s.classId, random)
    case Err(e) => Failed(s, e)
    case Ok((nft, id)) => Emitted(s.(nft := nft), KittyCreated(sender, id, random))
  }

  function DoBreed(s: State, owner: Account, dna1: Dna, dna2: Dna, selector: Bytes16): Outcome {
    if GenderOf(dna1) == GenderOf(dna2) then Failed(s, SameGender)
    else
      match Nft.Mint(s.nft, owner, s.classId, Combine(dna1, dna2, selector))
      case Err(e) => Failed(s, e)
      case Ok((nft, id)) => Emitted(s.(nft := nft), KittyBred(owner, id, Combine(dna1, dna2, selector)))
  }

  function BreedCall(s: State, sender: Account, id1: TokenId, id2: TokenId, selector: Bytes16): Outcome {
    match (KittyOf(s, sender, id1), KittyOf(s, sender, id2))
    case (Some(dna1), Some(dna2)) => DoBreed(s, sender, dna1, dna2, selector)
    case _ => Failed(s, InvalidKittyId)
  }

  function TransferCall(s: State, sender: Account, to: Account, id: TokenId): Outcome {
    match Nft.Transfer(s.nft, sender, to, (s.classId, id))
    case Err(e) => Failed(s, e)
    case Ok(nft) =>
      if sender == to then Outcome(s, Ok(()))
      else Emitted(s.(nft := nft, prices := s.prices - {id}), KittyTransferred(sender, to, id))
  }

  function SetPriceCall(s: State, sender: Account, id: TokenId, newPrice: Option<Balance>): Outcome {
    if (sender, (s.classId, id)) !in s.nft.byOwner then Failed(s, NotOwner)
    else
      var prices := match newPrice case Some(p) => s.prices[id := p] case None => s.prices - {id};
      Emitted(s.(prices := prices), KittyPriceUpdated(sender, id, newPrice))
  }

  /** All guards of `buy`, in the order the call meets them, before any effect. */
  function BuyCall(cfg: Config, s: State, sender: Account, owner: Account, id: TokenId, maxPrice: Balance): Outcome {
    if sender == owner then Failed(s, BuyFromSelf)
    else if id !in s.prices then Failed(s, NotForSale)
    else if maxPrice < s.prices[id] then Failed(s, PriceTooLow)
    else
      match Nft.Transfer(s.nft, owner, sender, (s.classId, id))
      case Err(e) => Failed(s, e)
      case Ok(nft) =>
        match Currency.Transfer(cfg.existentialDeposit, s.balances, sender, owner, s.prices[id])
        case Err(e) => Failed(s, e)
        case Ok(balances) =>
          Emitted(s.(nft := nft, balances := balances, prices := s.prices - {id}),
                  KittySold(owner, sender, id, s.prices[id]))
  }

  function AutoBreedCall(s: State, id1: TokenId, id2: TokenId, selector: Bytes16): Outcome {
    var key1, key2 := (s.classId, id1), (s.classId, id2);
    if key1 !in s.nft.tokens || key2 !in s.nft.tokens then Failed(s, InvalidKittyId)
    else DoBreed(s, s.nft.tokens[key1].owner, s.nft.tokens[key1].dna, s.nft.tokens[key2].dna, selector)
  }

  /** `random` is what `random_value` returns during this call. */
  function Dispatch(cfg: Config, s: State, origin: Origin, call: Call, random: Bytes16): Outcome {
    match (origin, call)
    case (Signed(who), Create) => CreateCall(s, who, random)
    case (Signed(who), Breed(id1, id2)) => BreedCall(s, who, id1, id2, random)
    case (Signed(who), Transfer(to, id)) => TransferCall(s, who, to, id)
    case (Signed(who), SetPrice(id, price)) => SetPriceCall(s, who, id, price)
    case (Signed(who), Buy(owner, id, maxPrice)) => BuyCall(cfg, s, who, owner, id, maxPrice)
    case (NoOrigin, AutoBreed(id1, id2, _, _)) => AutoBreedCall(s, id1, id2, random)
    case _ => Failed(s, BadOrigin)
  }

  // ----- Unsigned transactions -----

  predicate ValidSolution(cfg: Config, id1: TokenId, id2: TokenId, nonce: U32, solution: U128) {
    Difficulty.Accepts(cfg.difficulty, cfg.blake(Difficulty.Payload(id1, id2, nonce, solution)))
  }

  function SaturatingSucc(n: U32): U32 {
    if n == U32_MAX then n else n + 1
  }

  function ValidateUnsigned(cfg: Config, s: State, call: Call): (State, Validity) {
    match call
    case AutoBreed(id1, id2, nonce, solution) =>
      if ValidSolution(cfg, id1, id2, nonce, solution) && nonce == s.nonce
      then (s.(nonce := SaturatingSucc(s.nonce)), Valid)
      else (s, BadProof)
    case _ => (s, NotUnsigned)
  }

  // ----- Runs -----

  /**
   One thing that happens to the chain.  An unsigned extrinsic is validated and then dispatched,
   and the nonce write of the validation stays even when the dispatch fails.  `External` is any
   other pallet changing one free balance (fees, rewards, ordinary payments).
   */
  datatype Step =
    | SignedExtrinsic(who: Account, call: Call, random: Bytes16)
    | RootExtrinsic(call: Call, random: Bytes16)
    | UnsignedExtrinsic(call: Call, random: Bytes16)
    | External(who: Account, amount: Balance)

  function Next(cfg: Config, s: State, step: Step): State {
    match step
    case SignedExtrinsic(who, call, random) => Dispatch(cfg, s, Signed(who), call, random).state
    case RootExtrinsic(call, random) => Dispatch(cfg, s, Root, call, random).state
    case UnsignedExtrinsic(call, random) =>
      var (validated, validity) := ValidateUnsigned(cfg, s, call);
      if validity == Valid then Dispatch(cfg, validated, NoOrigin, call, random).state else s
    case External(who, amount) => s.(balances := s.balances[who := amount])
  }

  ghost function Run(cfg: Config, s: State, steps: seq<Step>): State {
    if steps == [] then s
    else Next(cfg, Run(cfg, s, steps[..|steps| - 1]), steps[|steps| - 1])
  }

  lemma {:induction false} RunAppend(cfg: Config, s: State, first: seq<Step>, second: seq<Step>)
    ensures Run(cfg, s, first + second) == Run(cfg, Run(cfg, s, first), second)
  {
    if second == [] {
      assert first + second == first;
    } else {
      var steps := first + second;
      assert steps[..|steps| - 1] == first + second[..|second| - 1];
      RunAppend(cfg, s, first, second[..|second| - 1]);
    }
  }

  /** Genesis: a class is created in the given NFT storage; `None` is the panic on an invalid chain spec. */
  function Genesis(nft: Nft.Storage, balances: Currency.Balances): Option<State> {
    match Nft.CreateClass(nft)
    case None => None
    case Some((created, classId)) => Some(State(classId, created, map[], balances, 0, []))
  }

  /** What the theorems about runs need of the first state. */
  ghost predicate IsGenesis(s: State) {
    && s.classId in s.nft.classes
    && s.nft.NextId(s.classId) == 0
    && (forall key | key in s.nft.tokens :: key.0 != s.classId)
    && (forall entry | entry in s.nft.byOwner :: entry.1.0 != s.classId)
    && s.prices == map[] && s.nonce == 0 && s.log == []
  }

  lemma GenesisIsGenesis(nft: Nft.Storage, balances: Currency.Balances)
    requires Nft.WellFormed(nft)
    ensures Genesis(nft, balances).None? <==> nft.nextClass == U32_MAX
    ensures Genesis(nft, balances).Some? ==>
              var g := Genesis(nft, balances).value;
              && IsGenesis(g) && g.balances == balances
              && g.classId !in nft.classes && g.nft.classes == nft.classes + {g.classId}
              && g.nft.tokens == nft.tokens && g.nft.byOwner == nft.byOwner && g.nft.nextToken == nft.nextToken
  {
  }
}
