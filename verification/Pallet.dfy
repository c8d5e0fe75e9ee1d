/**
 The pallet as it is written: storage updated in place, one method per call.  Each method is proved
 to do to the storage what the state machine of module Kitties says.
 */
module Pallet {
  import opened Base
  import opened Genetics
  import opened Kitties
  import Nft
  import Currency
  import Difficulty
  import Ledger
  import Mining
  import Runs

  class Pallet {
    const cfg: Config

    // NFT library
    var nextClassId: ClassId
    var classes: set<ClassId>
    var nextTokenId: map<ClassId, TokenId>
    var tokens: map<TokenKey, Nft.Token>
    var tokensByOwner: set<(Account, TokenKey)>

    // Kitties pallet
    var classId: ClassId
    var kittyPrices: map<TokenId, Balance>
    var autoBreedNonce: U32

    // Currency and system
    var balances: Currency.Balances
    var events: seq<Event>

    function NftStorage(): Nft.Storage
      reads this
    {
      Nft.Storage(nextClassId, classes, nextTokenId, tokens, tokensByOwner)
    }

    function Storage(): State
      reads this
    {
      State(classId, NftStorage(), kittyPrices, balances, autoBreedNonce, events)
    }

    /** Storage before genesis: whatever the chain spec put into the libraries, and nothing of the pallet. */
    constructor (cfg: Config, nft: Nft.Storage, balances: Currency.Balances)
      ensures this.cfg == cfg
      ensures Storage() == State(0, nft, map[], balances, 0, [])
    {
      this.cfg := cfg;
      nextClassId, classes, nextTokenId := nft.nextClass, nft.classes, nft.nextToken;
      tokens, tokensByOwner := nft.tokens, nft.byOwner;
      classId, kittyPrices, autoBreedNonce := 0, map[], 0;
      this.balances, events := balances, [];
    }

    /** `build` of the genesis config; false is the panic on an invalid chain spec. */
    method BuildGenesis() returns (ok: bool)
      requires kittyPrices == map[] && autoBreedNonce == 0 && events == []
      modifies this
      ensures ok == Genesis(old(NftStorage()), balances).Some?
      ensures ok ==> Genesis(old(NftStorage()), balances) == Some(Storage())
      ensures balances == old(balances)
    {
      if nextClassId == U32_MAX {
        return false;
      }
      var id := nextClassId;
      nextClassId := nextClassId + 1;
      classes := classes + {id};
      classId := id;
      return true;
    }

    // ----- Library operations, on the storage in place -----

    method MintToken(owner: Account, dna: Dna) returns (r: Result<TokenId>)
      modifies this`nextTokenId, this`tokens, this`tokensByOwner
      ensures match Nft.Mint(old(NftStorage()), owner, classId, dna)
              case Ok((nft, id)) => r == Ok(id) && NftStorage() == nft
              case Err(e) => r == Err(e) && NftStorage() == old(NftStorage())
    {
      var id := if classId in nextTokenId then nextTokenId[classId] else 0;
      if id == U32_MAX {
        return Err(NoAvailableTokenId);
      }
      if classId !in classes {
        return Err(ClassNotFound);
      }
      nextTokenId := nextTokenId[classId := id + 1];
      tokens := tokens[(classId, id) := Nft.Token(owner, dna)];
      tokensByOwner := tokensByOwner + {(owner, (classId, id))};
      return Ok(id);
    }

    method MoveToken(from: Account, to: Account, id: TokenId) returns (r: Result<()>)
      modifies this`tokens, this`tokensByOwner
      ensures match Nft.Transfer(old(NftStorage()), from, to, (classId, id))
              case Ok(nft) => r == Ok(()) && NftStorage() == nft
              case Err(e) => r == Err(e) && NftStorage() == old(NftStorage())
    {
      var key := (classId, id);
      if key !in tokens {
        return Err(TokenNotFound);
      }
      if tokens[key].owner != from {
        return Err(NoPermission);
      }
      if from == to {
        return Ok(());
      }
      tokens := tokens[key := tokens[key].(owner := to)];
      tokensByOwner := tokensByOwner - {(from, key)};
      tokensByOwner := tokensByOwner + {(to, key)};
      return Ok(());
    }

    method MoveMoney(from: Account, to: Account, amount: Balance) returns (r: Result<()>)
      modifies this`balances
      ensures match Currency.Transfer(cfg.existentialDeposit, old(balances), from, to, amount)
              case Ok(b) => r == Ok(()) && balances == b
              case Err(e) => r == Err(e) && balances == old(balances)
    {
      if amount == 0 || from == to {
        return Ok(());
      }
      var source, target := Currency.Free(balances, from), Currency.Free(balances, to);
      if source < amount {
        return Err(InsufficientBalance);
      }
      if target + amount > U128_MAX {
        return Err(Overflow);
      }
      if target + amount < cfg.existentialDeposit {
        return Err(ExistentialDeposit);
      }
      if source - amount < cfg.existentialDeposit {
        return Err(KeepAlive);
      }
      balances := balances[from := source - amount];
      balances := balances[to := target + amount];
      return Ok(());
    }

    // ----- Calls -----

    method Create(origin: Origin, random: Bytes16) returns (r: Result<()>)
      modifies this
      ensures Outcome(Storage(), r) == Dispatch(cfg, old(Storage()), origin, Call.Create, random)
    {
      if !origin.Signed? {
        return Err(BadOrigin);
      }
      var minted := MintToken(origin.who, random);
      match minted {
        case Err(e) => return Err(e);
        case Ok(id) =>
          events := events + [KittyCreated(origin.who, id, random)];
          return Ok(());
      }
    }

    method DoBreed(owner: Account, dna1: Dna, dna2: Dna, selector: Bytes16) returns (r: Result<()>)
      modifies this`nextTokenId, this`tokens, this`tokensByOwner, this`events
      ensures Outcome(Storage(), r) == Kitties.DoBreed(old(Storage()), owner, dna1, dna2, selector)
    {
      if GenderOf(dna1) == GenderOf(dna2) {
        return Err(SameGender);
      }
      var child := Crossover(dna1, dna2, selector);
      var minted := MintToken(owner, child);
      match minted {
        case Err(e) => return Err(e);
        case Ok(id) =>
          events := events + [KittyBred(owner, id, child)];
          return Ok(());
      }
    }

    method Breed(origin: Origin, id1: TokenId, id2: TokenId, random: Bytes16) returns (r: Result<()>)
      modifies this
      ensures Outcome(Storage(), r) == Dispatch(cfg, old(Storage()), origin, Call.Breed(id1, id2), random)
    {
      if !origin.Signed? {
        return Err(BadOrigin);
      }
      var kitty1 := KittyOf(Storage(), origin.who, id1);
      if kitty1.None? {
        return Err(InvalidKittyId);
      }
      var kitty2 := KittyOf(Storage(), origin.who, id2);
      if kitty2.None? {
        return Err(InvalidKittyId);
      }
      r := DoBreed(origin.who, kitty1.value, kitty2.value, random);
    }

    method Transfer(origin: Origin, to: Account, id: TokenId, ghost random: Bytes16) returns (r: Result<()>)
      modifies this
      ensures Outcome(Storage(), r) == Dispatch(cfg, old(Storage()), origin, Call.Transfer(to, id), random)
    {
      if !origin.Signed? {
        return Err(BadOrigin);
      }
      r := MoveToken(origin.who, to, id);
      if r.Err? {
        return;
      }
      if origin.who != to {
        kittyPrices := kittyPrices - {id};
        events := events + [KittyTransferred(origin.who, to, id)];
      }
    }

    method SetPrice(origin: Origin, id: TokenId, newPrice: Option<Balance>, ghost random: Bytes16)
      returns (r: Result<()>)
      modifies this
      ensures Outcome(Storage(), r) == Dispatch(cfg, old(Storage()), origin, Call.SetPrice(id, newPrice), random)
    {
      if !origin.Signed? {
        return Err(BadOrigin);
      }
      if (origin.who, (classId, id)) !in tokensByOwner {
        return Err(NotOwner);
      }
      match newPrice {
        case Some(p) => kittyPrices := kittyPrices[id := p];
        case None => kittyPrices := kittyPrices - {id};
      }
      events := events + [KittyPriceUpdated(origin.who, id, newPrice)];
      return Ok(());
    }

    /** The body of `buy` without its transaction: exactly a failed payment leaves the kitty with the buyer. */
    method BuyInTransaction(sender: Account, owner: Account, id: TokenId, maxPrice: Balance) returns (r: Result<()>)
      modifies this`tokens, this`tokensByOwner, this`balances, this`kittyPrices, this`events
      ensures r == BuyCall(cfg, old(Storage()), sender, owner, id, maxPrice).result
      ensures r.Ok? ==> Storage() == BuyCall(cfg, old(Storage()), sender, owner, id, maxPrice).state
      ensures r.Err? ==>
                var moved := Nft.Transfer(old(NftStorage()), owner, sender, (classId, id));
                && Storage() == old(Storage()).(nft := NftStorage())
                && (NftStorage() != old(NftStorage()) ==> moved == Ok(NftStorage()))
                && (NftStorage() != old(NftStorage()) <==>
                      && sender != owner && id in old(kittyPrices) && old(kittyPrices)[id] <= maxPrice
                      && moved.Ok?
                      && Currency.Transfer(cfg.existentialDeposit, old(balances), sender, owner,
                                           old(kittyPrices)[id]).Err?)
    {
      if sender == owner {
        return Err(BuyFromSelf);
      }
      if id !in kittyPrices {
        return Err(NotForSale);
      }
      var price := kittyPrices[id];
      if maxPrice < price {
        return Err(PriceTooLow);
      }
      r := MoveToken(owner, sender, id);
      if r.Err? {
        return;
      }
      r := MoveMoney(sender, owner, price);
      if r.Err? {
        return;
      }
      events := events + [KittySold(owner, sender, id, price)];
      kittyPrices := kittyPrices - {id};
    }

    /** `buy` runs in a storage transaction: on an error everything written is rolled back. */
    method Buy(origin: Origin, owner: Account, id: TokenId, maxPrice: Balance, ghost random: Bytes16)
      returns (r: Result<()>)
      modifies this
      ensures Outcome(Storage(), r) == Dispatch(cfg, old(Storage()), origin, Call.Buy(owner, id, maxPrice), random)
    {
      if !origin.Signed? {
        return Err(BadOrigin);
      }
      var tokens0, tokensByOwner0, kittyPrices0 := tokens, tokensByOwner, kittyPrices;
      var balances0, events0 := balances, events;
      r := BuyInTransaction(origin.who, owner, id, maxPrice);
      if r.Err? {
        tokens, tokensByOwner, kittyPrices := tokens0, tokensByOwner0, kittyPrices0;
        balances, events := balances0, events0;
      }
    }

    method AutoBreed(origin: Origin, id1: TokenId, id2: TokenId, nonce: U32, solution: U128, random: Bytes16)
      returns (r: Result<()>)
      modifies this
      ensures Outcome(Storage(), r)
           == Dispatch(cfg, old(Storage()), origin, Call.AutoBreed(id1, id2, nonce, solution), random)
    {
      if !origin.NoOrigin? {
        return Err(BadOrigin);
      }
      if (classId, id1) !in tokens {
        return Err(InvalidKittyId);
      }
      var kitty1 := tokens[(classId, id1)];
      if (classId, id2) !in tokens {
        return Err(InvalidKittyId);
      }
      var kitty2 := tokens[(classId, id2)];
      r := DoBreed(kitty1.owner, kitty1.dna, kitty2.dna, random);
    }

    // ----- Unsigned transactions -----

    method ValidateUnsigned(call: Call) returns (validity: Validity)
      modifies this`autoBreedNonce
      ensures (Storage(), validity) == Kitties.ValidateUnsigned(cfg, old(Storage()), call)
    {
      match call {
        case AutoBreed(id1, id2, nonce, solution) =>
          if ValidSolution(cfg, id1, id2, nonce, solution) {
            if nonce != autoBreedNonce {
              return BadProof;
            }
            autoBreedNonce := SaturatingSucc(autoBreedNonce);
            return Valid;
          } else {
            return BadProof;
          }
        case _ => return NotUnsigned;
      }
    }

    // ----- Execution of one step by the framework -----

    method Execute(origin: Origin, call: Call, random: Bytes16) returns (r: Result<()>)
      modifies this
      ensures Outcome(Storage(), r) == Dispatch(cfg, old(Storage()), origin, call, random)
    {
      match call {
        case Create => r := Create(origin, random);
        case Breed(id1, id2) => r := Breed(origin, id1, id2, random);
        case Transfer(to, id) => r := Transfer(origin, to, id, random);
        case SetPrice(id, price) => r := SetPrice(origin, id, price, random);
        case Buy(owner, id, maxPrice) => r := Buy(origin, owner, id, maxPrice, random);
        case AutoBreed(id1, id2, nonce, solution) => r := AutoBreed(origin, id1, id2, nonce, solution, random);
      }
    }

    /** The storage written in place takes exactly the steps of the state machine. */
    method TakeStep(step: Step)
      modifies this
      ensures Storage() == Next(cfg, old(Storage()), step)
    {
      match step {
        case SignedExtrinsic(who, call, random) => var _ := Execute(Signed(who), call, random);
        case RootExtrinsic(call, random) => var _ := Execute(Root, call, random);
        case UnsignedExtrinsic(call, random) =>
          var validity := ValidateUnsigned(call);
          if validity == Valid {
            var _ := Execute(NoOrigin, call, random);
          }
        case External(who, amount) => balances := balances[who := amount];
      }
    }

    /** Blocks of steps: the storage follows the run, and from genesis it agrees with its event log. */
    method TakeSteps(steps: seq<Step>)
      modifies this
      ensures Storage() == Run(cfg, old(Storage()), steps)
      ensures IsGenesis(old(Storage())) ==>
                Ledger.Represents(Storage(), Ledger.Replay(events)) && Ledger.LegalLog(cfg.existentialDeposit, events)
    {
      for i := 0 to |steps|
        invariant Storage() == Run(cfg, old(Storage()), steps[..i])
      {
        assert steps[..i + 1][..i] == steps[..i];
        TakeStep(steps[i]);
      }
      assert steps[..|steps|] == steps;
      ghost var g := old(Storage());
      if IsGenesis(g) {
        Runs.LogAccountsForState(cfg, g, steps);
      }
    }

    // ----- Off-chain worker -----

    /** First loop: draw pairs of ids until two kitties of different gender turn up. */
    method DrawPair(kittyCount: U32, rng: Mining.Rng)
      returns (found: bool, pair: (TokenId, TokenId), remaining: U128, pairs: nat)
      requires 0 < kittyCount == Mining.KittyCount(Storage())
      ensures 1 <= pairs <= Mining.MAX_ITERATIONS
      ensures Mining.DudsBefore(Storage(), rng, pairs - 1)
      ensures pair == Mining.PairDrawn(Storage(), rng, pairs - 1)
      ensures found == Mining.Mates(Storage(), pair)
      ensures found ==> 0 < remaining == Mining.MAX_ITERATIONS + 1 - pairs
      ensures Mining.Dud(Storage(), pair) ==> pairs == Mining.MAX_ITERATIONS
    {
      remaining := Mining.MAX_ITERATIONS;
      pairs := 0;
      while true
        invariant 0 < remaining == Mining.MAX_ITERATIONS - pairs
        invariant Mining.DudsBefore(Storage(), rng, pairs)
        decreases remaining
      {
        pair := (rng(2 * pairs) % kittyCount, rng(2 * pairs + 1) % kittyCount);
        assert pair == Mining.PairDrawn(Storage(), rng, pairs);
        pairs := pairs + 1;
        if (classId, pair.0) !in tokens || (classId, pair.1) !in tokens {
          found := false;
          return;
        }
        if GenderOf(tokens[(classId, pair.0)].dna) != GenderOf(tokens[(classId, pair.1)].dna) {
          found := true;
          return;
        }
        remaining := remaining - 1;
        if remaining == 0 {
          found := false;
          return;
        }
      }
    }

    /** Second loop: try solutions with what is left of the budget. */
    method TrySolutions(pair: (TokenId, TokenId), prefix: U32, remaining: U128)
      returns (call: Option<Call>, trials: nat)
      requires 0 < remaining <= Mining.MAX_ITERATIONS
      ensures Mining.Tried(cfg, Storage(), pair, prefix, remaining, call, trials)
    {
      var nonce := autoBreedNonce;
      for i := 0 to remaining
        invariant Mining.UnsolvedBefore(cfg, Storage(), pair, prefix, i)
      {
        var solution := Difficulty.Candidate(prefix, i);
        if ValidSolution(cfg, pair.0, pair.1, nonce, solution) {
          return Some(Call.AutoBreed(pair.0, pair.1, nonce, solution)), i + 1;
        }
      }
      return None, remaining;
    }

    /** `locked` says whether the storage lock was obtained; the submission is an output. */
    method RunOffchainWorker(locked: bool, rng: Mining.Rng) returns (w: Mining.WorkerRun)
      ensures Mining.Mines(cfg, Storage(), locked, rng, w)
    {
      if !locked {
        return Mining.WorkerRun(false, None, 0, 0);
      }
      var kittyCount := Mining.KittyCount(Storage());
      if kittyCount == 0 {
        return Mining.WorkerRun(true, None, 0, 0);
      }
      var found, pair, remaining, pairs := DrawPair(kittyCount, rng);
      if !found {
        return Mining.WorkerRun(false, None, pairs, 0);
      }
      var call, trials := TrySolutions(pair, rng(2 * pairs), remaining);
      return Mining.WorkerRun(true, call, pairs, trials);
    }
  }
}
