/**
 Each call as its caller sees it, in every reachable state: exactly when it succeeds, the event it emits,
 what kitties, listings and balances are afterwards, and that nothing else has changed.
 */
module Laws {
  import opened Base
  import opened Genetics
  import opened Kitties
  import opened Ledger
  import opened Runs
  import opened Mining
  import Difficulty
  import Nft

  /** The call emitted `e`, after which the kitties and listings are those of `b`; no money moved. */
  ghost predicate Turns(s: State, s': State, e: Event, b: Book) {
    && s'.log == s.log + [e]
    && BookOf(s') == b && Represents(s', b)
    && s'.balances == s.balances && s'.nonce == s.nonce && s'.classId == s.classId
    && OnlyClass(s.classId, s.nft, s'.nft)
  }

  lemma Turned(cfg: Config, s: State, s': State, e: Event)
    requires Accounted(cfg, s) && Explained(cfg, s, BookOf(s), s')
    requires s'.log == s.log + [e] && s'.balances == s.balances && s'.nonce == s.nonce
    ensures Turns(s, s', e, Apply(BookOf(s), e))
  {
    assert s'.log[..|s'.log| - 1] == s.log;
  }

  /** The signer of `create` gets a new kitty with the random DNA, under the next id. */
  lemma CreateLaw(cfg: Config, g: State, steps: seq<Step>, who: Account, random: Bytes16)
    requires IsGenesis(g)
    ensures var s := Run(cfg, g, steps);
            var b := BookOf(s);
            var o := Dispatch(cfg, s, Signed(who), Create, random);
            && Next(cfg, s, SignedExtrinsic(who, Create, random)) == o.state
            && (o.result.Ok? <==> |b.kitties| < U32_MAX)
            && (o.result.Err? ==> o.state == s)
            && (o.result.Ok? ==>
                  && Turns(s, o.state, KittyCreated(who, |b.kitties|, random),
                           Book(b.kitties + [Nft.Token(who, random)], b.prices))
                  && KittyOf(o.state, who, |b.kitties|) == Some(random))
  {
    LogAccountsForState(cfg, g, steps);
    var s := Run(cfg, g, steps);
    var b := BookOf(s);
    DispatchExplained(cfg, s, b, Signed(who), Create, random);
    MintAppends(s.nft, who, s.classId, random, b.kitties);
    if |b.kitties| < U32_MAX {
      Turned(cfg, s, CreateCall(s, who, random).state, KittyCreated(who, |b.kitties|, random));
    }
  }

  predicate MatesIn(b: Book, id1: TokenId, id2: TokenId) {
    id1 < |b.kitties| && id2 < |b.kitties| && GenderOf(b.kitties[id1].dna) != GenderOf(b.kitties[id2].dna)
  }

  /** `owner` got a child under the next id, which takes each bit from the parent its selector bit names. */
  ghost predicate BredFor(s: State, s': State, owner: Account, id1: TokenId, id2: TokenId, selector: Bytes16)
    requires MatesIn(BookOf(s), id1, id2) && |BookOf(s).kitties| < U32_MAX
  {
    var b := BookOf(s);
    exists child: Dna ::
      && Inherits(child, b.kitties[id1].dna, b.kitties[id2].dna, selector)
      && Turns(s, s', KittyBred(owner, |b.kitties|, child), Book(b.kitties + [Nft.Token(owner, child)], b.prices))
  }

  lemma DoBreedLaw(cfg: Config, s: State, id1: TokenId, id2: TokenId, selector: Bytes16)
    requires Accounted(cfg, s) && MatesIn(BookOf(s), id1, id2) && |BookOf(s).kitties| < U32_MAX
    ensures var k1, k2 := BookOf(s).kitties[id1], BookOf(s).kitties[id2];
            var o := DoBreed(s, k1.owner, k1.dna, k2.dna, selector);
            o.result.Ok? && BredFor(s, o.state, k1.owner, id1, id2, selector)
  {
    var b := BookOf(s);
    var k1, k2 := b.kitties[id1], b.kitties[id2];
    var child: Dna := Combine(k1.dna, k2.dna, selector);
    MintAppends(s.nft, k1.owner, s.classId, child, b.kitties);
    DoBreedExplained(cfg, s, b, id1, id2, selector);
    CombineIffInherits(child, k1.dna, k2.dna, selector);
    Turned(cfg, s, DoBreed(s, k1.owner, k1.dna, k2.dna, selector).state, KittyBred(k1.owner, |b.kitties|, child));
  }

  /** `breed` needs two kitties of the signer's, of different gender; the signer gets the child. */
  lemma BreedLaw(cfg: Config, g: State, steps: seq<Step>, who: Account, id1: TokenId, id2: TokenId, random: Bytes16)
    requires IsGenesis(g)
    ensures var s := Run(cfg, g, steps);
            var b := BookOf(s);
            var o := Dispatch(cfg, s, Signed(who), Breed(id1, id2), random);
            && Next(cfg, s, SignedExtrinsic(who, Breed(id1, id2), random)) == o.state
            && (o.result.Ok? <==>
                  Owns(b, who, id1) && Owns(b, who, id2) && MatesIn(b, id1, id2) && |b.kitties| < U32_MAX)
            && (o.result.Err? ==> o.state == s)
            && (o.result.Ok? ==> BredFor(s, o.state, who, id1, id2, random))
  {
    LogAccountsForState(cfg, g, steps);
    var s := Run(cfg, g, steps);
    BreedInState(cfg, s, who, id1, id2, random);
  }

  lemma BreedInState(cfg: Config, s: State, who: Account, id1: TokenId, id2: TokenId, random: Bytes16)
    requires Accounted(cfg, s)
    ensures var b := BookOf(s);
            var o := BreedCall(s, who, id1, id2, random);
            && (o.result.Ok? <==>
                  Owns(b, who, id1) && Owns(b, who, id2) && MatesIn(b, id1, id2) && |b.kitties| < U32_MAX)
            && (o.result.Err? ==> o.state == s)
            && (o.result.Ok? ==> BredFor(s, o.state, who, id1, id2, random))
  {
    var b := BookOf(s);
    assert (s.classId, id1) in s.nft.tokens <==> id1 < |b.kitties|;
    assert (s.classId, id2) in s.nft.tokens <==> id2 < |b.kitties|;
    if Owns(b, who, id1) && Owns(b, who, id2) && MatesIn(b, id1, id2) && |b.kitties| < U32_MAX {
      DoBreedLaw(cfg, s, id1, id2, random);
    }
  }

  /** `transfer` hands the signer's kitty to the account named and ends its listing; to oneself it does nothing. */
  lemma TransferLaw(cfg: Config, g: State, steps: seq<Step>, who: Account, to: Account, id: TokenId, random: Bytes16)
    requires IsGenesis(g)
    ensures var s := Run(cfg, g, steps);
            var b := BookOf(s);
            var o := Dispatch(cfg, s, Signed(who), Call.Transfer(to, id), random);
            && Next(cfg, s, SignedExtrinsic(who, Call.Transfer(to, id), random)) == o.state
            && (o.result.Ok? <==> Owns(b, who, id))
            && (o.result.Err? || to == who ==> o.state == s)
            && (o.result.Ok? && to != who ==>
                  Turns(s, o.state, KittyTransferred(who, to, id),
                        Book(b.kitties[id := Nft.Token(to, b.kitties[id].dna)], b.prices - {id})))
  {
    LogAccountsForState(cfg, g, steps);
    var s := Run(cfg, g, steps);
    var b := BookOf(s);
    assert (s.classId, id) in s.nft.tokens <==> id < |b.kitties|;
    if to != who && Owns(b, who, id) {
      TransferExplained(cfg, s, b, who, to, id);
      Turned(cfg, s, TransferCall(s, who, to, id).state, KittyTransferred(who, to, id));
    }
  }

  /** `set_price` lists the signer's kitty at exactly the price asked for, or takes it off the market. */
  lemma SetPriceLaw(cfg: Config, g: State, steps: seq<Step>, who: Account, id: TokenId, newPrice: Option<Balance>,
                    random: Bytes16)
    requires IsGenesis(g)
    ensures var s := Run(cfg, g, steps);
            var b := BookOf(s);
            var o := Dispatch(cfg, s, Signed(who), SetPrice(id, newPrice), random);
            && Next(cfg, s, SignedExtrinsic(who, SetPrice(id, newPrice), random)) == o.state
            && (o.result.Ok? <==> Owns(b, who, id))
            && (o.result.Err? ==> o.state == s)
            && (o.result.Ok? ==>
                  && Turns(s, o.state, KittyPriceUpdated(who, id, newPrice), Book(b.kitties, o.state.prices))
                  && (id in o.state.prices <==> newPrice.Some?)
                  && (newPrice.Some? ==> o.state.prices[id] == newPrice.value)
                  && o.state.prices - {id} == s.prices - {id})
  {
    LogAccountsForState(cfg, g, steps);
    var s := Run(cfg, g, steps);
    var b := BookOf(s);
    SetPriceExplained(cfg, s, b, who, id, newPrice);
    var s' := SetPriceCall(s, who, id, newPrice).state;
    if Owns(b, who, id) {
      Turned(cfg, s, s', KittyPriceUpdated(who, id, newPrice));
      PriceSet(b, s'.prices, who, id, newPrice);
    }
  }

  lemma PriceSet(b: Book, prices: map<TokenId, Balance>, who: Account, id: TokenId, newPrice: Option<Balance>)
    requires prices == Apply(b, KittyPriceUpdated(who, id, newPrice)).prices
    ensures id in prices <==> newPrice.Some?
    ensures newPrice.Some? ==> prices[id] == newPrice.value
    ensures prices - {id} == b.prices - {id}
  {
  }

  // ----- Unsigned extrinsics -----

  /** The number the hash of a call's ids, nonce and solution stands for, times the difficulty, stays in `u128`. */
  predicate HashFits(cfg: Config, id1: TokenId, id2: TokenId, nonce: U32, solution: U128) {
    cfg.difficulty * (Difficulty.FromLe(cfg.blake(Difficulty.Payload(id1, id2, nonce, solution))) + 1) <= U128_MAX
  }

  lemma SolutionMeans(cfg: Config, id1: TokenId, id2: TokenId, nonce: U32, solution: U128)
    ensures ValidSolution(cfg, id1, id2, nonce, solution)
       <==> cfg.difficulty * (Difficulty.FromLe(cfg.blake(Difficulty.Payload(id1, id2, nonce, solution))) + 1)
            <= U128_MAX
  {
    Difficulty.AcceptsMeans(cfg.difficulty, cfg.blake(Difficulty.Payload(id1, id2, nonce, solution)));
  }

  /** Every part of the payload is hashed: changing the hash of one payload changes the verdict on it alone. */
  lemma VerdictDependsOnPayload(cfg: Config, cfg': Config, payload: Difficulty.Payload,
                                id1: TokenId, id2: TokenId, nonce: U32, solution: U128)
    requires cfg'.difficulty == cfg.difficulty
    requires forall other | other != payload :: cfg'.blake(other) == cfg.blake(other)
    requires cfg.blake(payload) == seq(16, _ => 0) && cfg'.blake(payload) == seq(16, _ => 0xff)
    ensures ValidSolution(cfg, id1, id2, nonce, solution) != ValidSolution(cfg', id1, id2, nonce, solution)
       <==> id1 == payload.id1 && id2 == payload.id2 && nonce == payload.nonce && solution == payload.solution
  {
    SolutionMeans(cfg, id1, id2, nonce, solution);
    SolutionMeans(cfg', id1, id2, nonce, solution);
    Difficulty.ZeroBytes(16);
    Difficulty.FullBytes(16);
    Difficulty.Sixteen();
    Difficulty.ProductGrows(1, cfg.difficulty, U128_MAX + 1, U128_MAX + 1);
  }

  /** The verdict of the validator, and that it writes nothing but the nonce. */
  lemma ValidatorLaw(cfg: Config, s: State, call: Call)
    ensures var (validated, verdict) := ValidateUnsigned(cfg, s, call);
            && (verdict == NotUnsigned <==> !call.AutoBreed?)
            && (verdict == Valid <==>
                  && call.AutoBreed? && call.nonce == s.nonce
                  && HashFits(cfg, call.id1, call.id2, call.nonce, call.solution))
            && (verdict != Valid ==> validated == s)
            && (verdict == Valid ==> validated == s.(nonce := if s.nonce < U32_MAX then s.nonce + 1 else U32_MAX))
  {
    if call.AutoBreed? {
      SolutionMeans(cfg, call.id1, call.id2, call.nonce, call.solution);
    }
  }

  /**
   An unsigned extrinsic that is not valid does nothing.  A valid one advances the nonce, and breeds its two
   kitties for the owner of the first exactly when they are mates and an id is left.
   */
  lemma UnsignedLaw(cfg: Config, g: State, steps: seq<Step>, call: Call, random: Bytes16)
    requires IsGenesis(g)
    ensures var s := Run(cfg, g, steps);
            var b := BookOf(s);
            var (validated, verdict) := ValidateUnsigned(cfg, s, call);
            var s' := Next(cfg, s, UnsignedExtrinsic(call, random));
            && (verdict != Valid ==> s' == s)
            && (verdict == Valid ==>
                  if MatesIn(b, call.id1, call.id2) && |b.kitties| < U32_MAX
                  then BredFor(validated, s', b.kitties[call.id1].owner, call.id1, call.id2, random)
                  else s' == validated)
  {
    LogAccountsForState(cfg, g, steps);
    var s := Run(cfg, g, steps);
    var (validated, verdict) := ValidateUnsigned(cfg, s, call);
    if verdict == Valid {
      AutoBreedLaw(cfg, validated, call.id1, call.id2, random);
    }
  }

  lemma AutoBreedLaw(cfg: Config, s: State, id1: TokenId, id2: TokenId, random: Bytes16)
    requires Accounted(cfg, s)
    ensures var b := BookOf(s);
            var s' := AutoBreedCall(s, id1, id2, random).state;
            if MatesIn(b, id1, id2) && |b.kitties| < U32_MAX
            then BredFor(s, s', b.kitties[id1].owner, id1, id2, random)
            else s' == s
  {
    var b := BookOf(s);
    assert (s.classId, id1) in s.nft.tokens <==> id1 < |b.kitties|;
    assert (s.classId, id2) in s.nft.tokens <==> id2 < |b.kitties|;
    if MatesIn(b, id1, id2) && |b.kitties| < U32_MAX {
      DoBreedLaw(cfg, s, id1, id2, random);
    }
  }

  // ----- Off-chain worker -----

  lemma MatesAgree(cfg: Config, s: State, id1: TokenId, id2: TokenId)
    requires Accounted(cfg, s)
    ensures KittyCount(s) == |BookOf(s).kitties|
    ensures Mates(s, (id1, id2)) <==> MatesIn(BookOf(s), id1, id2)
  {
    var b := BookOf(s);
    assert (s.classId, id1) in s.nft.tokens <==> id1 < |b.kitties|;
    assert (s.classId, id2) in s.nft.tokens <==> id2 < |b.kitties|;
  }

  /**
   The worker in numbers, for any kitties and any random stream: which ids it draws, which pair it takes, which
   solution it submits, and when it gives up.
   */
  lemma WorkerLaw(cfg: Config, g: State, steps: seq<Step>, locked: bool, rng: Rng, w: WorkerRun)
    requires IsGenesis(g) && Mines(cfg, Run(cfg, g, steps), locked, rng, w)
    ensures !locked ==> w == WorkerRun(false, None, 0, 0)
    ensures locked && BookOf(Run(cfg, g, steps)).kitties == [] ==> w == WorkerRun(true, None, 0, 0)
    ensures locked && BookOf(Run(cfg, g, steps)).kitties != [] ==>
              var s := Run(cfg, g, steps);
              var b := BookOf(s);
              var n: U32 := KittyCount(s);
              && n == |b.kitties| && 1 <= w.pairs <= 500 && w.pairs + w.trials <= 501
              && (forall m: nat | m < w.pairs - 1 :: !MatesIn(b, rng(2 * m) % n, rng(2 * m + 1) % n))
              && var id1, id2 := rng(2 * w.pairs - 2) % n, rng(2 * w.pairs - 1) % n;
              && (w.ok <==> MatesIn(b, id1, id2))
              && (!w.ok ==> w == WorkerRun(false, None, 500, 0))
              && (w.ok ==> SearchedFrom(cfg, id1, id2, s.nonce, rng(2 * w.pairs), 501 - w.pairs, w.submitted, w.trials))
  {
    var s := Run(cfg, g, steps);
    LogAccountsForState(cfg, g, steps);
    MatesAgree(cfg, s, 0, 0);
    if locked && KittyCount(s) > 0 {
      WorkerInNumbers(cfg, s, rng, w);
    }
  }

  predicate TrialFits(cfg: Config, id1: TokenId, id2: TokenId, nonce: U32, prefix: U32, i: U32) {
    HashFits(cfg, id1, id2, nonce, prefix * 0x1_0000_0000 + i)
  }

  /** Solutions `prefix * 2^32 + i` were tried in order; the first whose hash fits was submitted. */
  ghost predicate SearchedFrom(cfg: Config, id1: TokenId, id2: TokenId, nonce: U32, prefix: U32, budget: int,
                               submitted: Option<Call>, trials: nat)
  {
    && 1 <= trials <= budget <= 500
    && (forall i: U32 | i < trials - 1 :: !TrialFits(cfg, id1, id2, nonce, prefix, i))
    && if TrialFits(cfg, id1, id2, nonce, prefix, trials - 1)
       then submitted == Some(Call.AutoBreed(id1, id2, nonce, prefix * 0x1_0000_0000 + trials - 1))
       else submitted == None && trials == budget
  }

  lemma WorkerInNumbers(cfg: Config, s: State, rng: Rng, w: WorkerRun)
    requires Accounted(cfg, s) && KittyCount(s) > 0 && Mines(cfg, s, true, rng, w)
    ensures var b := BookOf(s);
            var n: U32 := KittyCount(s);
            && 1 <= w.pairs <= 500 && w.pairs + w.trials <= 501
            && (forall m: nat | m < w.pairs - 1 :: !MatesIn(b, rng(2 * m) % n, rng(2 * m + 1) % n))
            && var id1, id2 := rng(2 * w.pairs - 2) % n, rng(2 * w.pairs - 1) % n;
            && (w.ok <==> MatesIn(b, id1, id2))
            && (!w.ok ==> w == WorkerRun(false, None, 500, 0))
            && (w.ok ==> SearchedFrom(cfg, id1, id2, s.nonce, rng(2 * w.pairs), 501 - w.pairs, w.submitted, w.trials))
  {
    var n: U32 := KittyCount(s);
    forall m: nat
      ensures KnownPair(s, PairDrawn(s, rng, m))
      ensures Mates(s, PairDrawn(s, rng, m)) <==> MatesIn(BookOf(s), rng(2 * m) % n, rng(2 * m + 1) % n)
    {
      DrawnPairKnown(cfg, s, rng, m);
      MatesAgree(cfg, s, rng(2 * m) % n, rng(2 * m + 1) % n);
    }
    var pair := PairDrawn(s, rng, w.pairs - 1);
    assert pair == (rng(2 * w.pairs - 2) % n, rng(2 * w.pairs - 1) % n);
    if w.ok {
      TriedInNumbers(cfg, s, pair, rng(2 * w.pairs), 501 - w.pairs, w.submitted, w.trials);
    }
  }

  lemma TriedInNumbers(cfg: Config, s: State, pair: (TokenId, TokenId), prefix: U32, budget: U128,
                       submitted: Option<Call>, trials: nat)
    requires budget <= 500 && Tried(cfg, s, pair, prefix, budget, submitted, trials)
    ensures SearchedFrom(cfg, pair.0, pair.1, s.nonce, prefix, budget, submitted, trials)
  {
    forall i: U32
      ensures Solves(cfg, s, pair, prefix, i) <==> TrialFits(cfg, pair.0, pair.1, s.nonce, prefix, i)
    {
      TrialMeans(cfg, s, pair, prefix, i);
    }
    Difficulty.CandidateUnpacks(prefix, trials - 1);
  }

  lemma TrialMeans(cfg: Config, s: State, pair: (TokenId, TokenId), prefix: U32, i: U32)
    ensures Solves(cfg, s, pair, prefix, i) <==> TrialFits(cfg, pair.0, pair.1, s.nonce, prefix, i)
  {
    Difficulty.CandidateUnpacks(prefix, i);
    SolutionMeans(cfg, pair.0, pair.1, s.nonce, Difficulty.Candidate(prefix, i));
  }

  /** No pair of mates is out of the worker's reach: some stream makes it take exactly that pair, at once. */
  lemma EveryPairCanBeDrawn(cfg: Config, g: State, steps: seq<Step>, id1: TokenId, id2: TokenId) returns (rng: Rng)
    requires IsGenesis(g) && MatesIn(BookOf(Run(cfg, g, steps)), id1, id2)
    ensures forall w | Mines(cfg, Run(cfg, g, steps), true, rng, w) ::
              && w.ok && w.pairs == 1
              && SearchedFrom(cfg, id1, id2, Run(cfg, g, steps).nonce, rng(2), 500, w.submitted, w.trials)
  {
    rng := i => if i == 0 then id1 else id2;
    var s := Run(cfg, g, steps);
    LogAccountsForState(cfg, g, steps);
    forall w | Mines(cfg, s, true, rng, w)
      ensures w.ok && w.pairs == 1 && SearchedFrom(cfg, id1, id2, s.nonce, rng(2), 500, w.submitted, w.trials)
    {
      FirstPairTaken(cfg, s, rng, id1, id2, w);
    }
  }

  lemma FirstPairTaken(cfg: Config, s: State, rng: Rng, id1: TokenId, id2: TokenId, w: WorkerRun)
    requires Accounted(cfg, s) && MatesIn(BookOf(s), id1, id2)
    requires rng(0) == id1 && rng(1) == id2 && Mines(cfg, s, true, rng, w)
    ensures w.ok && w.pairs == 1 && SearchedFrom(cfg, id1, id2, s.nonce, rng(2), 500, w.submitted, w.trials)
  {
    MatesAgree(cfg, s, id1, id2);
    SmallRemainder(id1, KittyCount(s));
    SmallRemainder(id2, KittyCount(s));
    StopsAtFirstMates(cfg, s, rng, w);
    TriedInNumbers(cfg, s, (id1, id2), rng(2), 500, w.submitted, w.trials);
  }

  lemma SmallRemainder(x: nat, n: nat)
    requires x < n
    ensures x % n == x
  {
  }
}
