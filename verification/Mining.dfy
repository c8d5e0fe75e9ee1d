/** The auto-breed protocol: the off-chain miner, and that its work is still good in later states. */
module Mining {
  import opened Base
  import opened Genetics
  import opened Kitties
  import opened Runs
  import opened Lineage
  import Difficulty

  const MAX_ITERATIONS: U128 := 500

  /** The ChaCha stream: `rng(i)` is what the i-th `next_u32` returns. */
  type Rng = nat -> U32

  function KittyCount(s: State): U32 {
    s.nft.NextId(s.classId)
  }

  predicate Known(s: State, id: TokenId) {
    (s.classId, id) in s.nft.tokens
  }

  function DnaOf(s: State, id: TokenId): Dna
    requires Known(s, id)
  {
    s.nft.tokens[(s.classId, id)].dna
  }

  /** The `n`-th pair of ids drawn. */
  function PairDrawn(s: State, rng: Rng, n: nat): (TokenId, TokenId)
    requires KittyCount(s) > 0
  {
    (rng(2 * n) % KittyCount(s), rng(2 * n + 1) % KittyCount(s))
  }

  predicate KnownPair(s: State, pair: (TokenId, TokenId)) {
    Known(s, pair.0) && Known(s, pair.1)
  }

  predicate Mates(s: State, pair: (TokenId, TokenId)) {
    KnownPair(s, pair) && GenderOf(DnaOf(s, pair.0)) != GenderOf(DnaOf(s, pair.1))
  }

  /** Both kitties exist and have the same gender: draw again. */
  predicate Dud(s: State, pair: (TokenId, TokenId)) {
    KnownPair(s, pair) && !Mates(s, pair)
  }

  predicate Solves(cfg: Config, s: State, pair: (TokenId, TokenId), prefix: U32, i: U128) {
    ValidSolution(cfg, pair.0, pair.1, s.nonce, Difficulty.Candidate(prefix, i))
  }

  ghost predicate DudsBefore(s: State, rng: Rng, pairs: nat)
    requires KittyCount(s) > 0
  {
    forall n: nat | n < pairs :: Dud(s, PairDrawn(s, rng, n))
  }

  ghost predicate UnsolvedBefore(cfg: Config, s: State, pair: (TokenId, TokenId), prefix: U32, trials: nat) {
    forall i: U128 | i < trials :: !Solves(cfg, s, pair, prefix, i)
  }

  /** What a worker run returns, what it submits, how many pairs it drew and how many solutions it tried. */
  datatype WorkerRun = WorkerRun(ok: bool, submitted: Option<Call>, pairs: nat, trials: nat)

  /**
   The worker's behaviour: pairs are drawn up to the first that is no dud, then solutions are tried
   up to the first that is valid, both within one budget.
   */
  ghost predicate Mines(cfg: Config, s: State, locked: bool, rng: Rng, w: WorkerRun) {
    if !locked then w == WorkerRun(false, None, 0, 0)
    else if KittyCount(s) == 0 then w == WorkerRun(true, None, 0, 0)
    else
      && 1 <= w.pairs <= MAX_ITERATIONS
      && DudsBefore(s, rng, w.pairs - 1)
      && var pair := PairDrawn(s, rng, w.pairs - 1);
      if Mates(s, pair)
      then w.ok && Tried(cfg, s, pair, rng(2 * w.pairs), MAX_ITERATIONS + 1 - w.pairs, w.submitted, w.trials)
      else
        && !w.ok && w.submitted == None && w.trials == 0
        && (Dud(s, pair) ==> w.pairs == MAX_ITERATIONS)
  }

  /** Solutions were tried up to the first valid one, which was submitted, or to the end of the budget. */
  ghost predicate Tried(cfg: Config, s: State, pair: (TokenId, TokenId), prefix: U32, budget: U128,
                        submitted: Option<Call>, trials: nat)
  {
    && 1 <= trials <= budget
    && UnsolvedBefore(cfg, s, pair, prefix, trials - 1)
    && if Solves(cfg, s, pair, prefix, trials - 1)
       then submitted == Some(AutoBreed(pair.0, pair.1, s.nonce, Difficulty.Candidate(prefix, trials - 1)))
       else submitted == None && trials == budget
  }

  /** The description leaves no choice: lock, state and random stream determine the whole worker run. */
  lemma MinesIsDeterministic(cfg: Config, s: State, locked: bool, rng: Rng, w: WorkerRun, w': WorkerRun)
    requires Mines(cfg, s, locked, rng, w) && Mines(cfg, s, locked, rng, w')
    ensures w == w'
  {
  }

  /** Draws and trials share a budget of 501, and the second loop always makes at least one trial. */
  lemma WorkerBudget(cfg: Config, s: State, locked: bool, rng: Rng, w: WorkerRun)
    requires Mines(cfg, s, locked, rng, w)
    ensures w.pairs <= 500 && w.pairs + w.trials <= 501
    ensures locked && KittyCount(s) > 0 && w.ok ==> w.trials >= 1
  {
  }

  /** In a reachable state no lookup fails: the worker gives up only after 500 pairs of one gender. */
  lemma WorkerNeverMissesToken(cfg: Config, g: State, steps: seq<Step>, rng: Rng, w: WorkerRun)
    requires IsGenesis(g)
    requires var s := Run(cfg, g, steps); KittyCount(s) > 0 && Mines(cfg, s, true, rng, w)
    ensures var s := Run(cfg, g, steps);
            && (forall n: nat :: KnownPair(s, PairDrawn(s, rng, n)))
            && (w.ok <==> exists n: nat :: n < 500 && Mates(s, PairDrawn(s, rng, n)))
            && (!w.ok ==> w.pairs == 500)
  {
    var s := Run(cfg, g, steps);
    LogAccountsForState(cfg, g, steps);
    forall n: nat
      ensures KnownPair(s, PairDrawn(s, rng, n))
    {
      DrawnPairKnown(cfg, s, rng, n);
    }
    GivesUpOnlyAtLimit(cfg, s, rng, w);
  }

  lemma DrawnPairKnown(cfg: Config, s: State, rng: Rng, n: nat)
    requires Accounted(cfg, s) && KittyCount(s) > 0
    ensures KnownPair(s, PairDrawn(s, rng, n))
  {
  }

  lemma GivesUpOnlyAtLimit(cfg: Config, s: State, rng: Rng, w: WorkerRun)
    requires KittyCount(s) > 0 && Mines(cfg, s, true, rng, w)
    requires forall n: nat :: KnownPair(s, PairDrawn(s, rng, n))
    ensures w.ok <==> exists n: nat :: n < MAX_ITERATIONS && Mates(s, PairDrawn(s, rng, n))
    ensures !w.ok ==> w.pairs == MAX_ITERATIONS
  {
    var last := PairDrawn(s, rng, w.pairs - 1);
    assert KnownPair(s, last);
    if w.ok {
      assert Mates(s, last);
    } else {
      forall n: nat | n < MAX_ITERATIONS
        ensures Dud(s, PairDrawn(s, rng, n))
      {
        assert n == w.pairs - 1 || n < w.pairs - 1;
      }
    }
  }

  lemma StopsAtFirstMates(cfg: Config, s: State, rng: Rng, w: WorkerRun)
    requires KittyCount(s) > 0 && Mines(cfg, s, true, rng, w) && Mates(s, PairDrawn(s, rng, 0))
    ensures w.ok && w.pairs == 1
    ensures Tried(cfg, s, PairDrawn(s, rng, 0), rng(2), MAX_ITERATIONS, w.submitted, w.trials)
  {
  }

  /** While all created kitties have one gender the worker draws exactly 500 pairs and submits nothing. */
  lemma OneGenderMinesNothing(cfg: Config, g: State, steps: seq<Step>, gender: Gender, rng: Rng, w: WorkerRun)
    requires IsGenesis(g)
    requires forall e | e in Run(cfg, g, steps).log && e.KittyCreated? :: GenderOf(e.dna) == gender
    requires var s := Run(cfg, g, steps); KittyCount(s) > 0 && Mines(cfg, s, true, rng, w)
    ensures w == WorkerRun(false, None, 500, 0)
  {
    var s := Run(cfg, g, steps);
    LogAccountsForState(cfg, g, steps);
    OneGenderNeverBreeds(cfg, g, steps, gender);
    WorkerNeverMissesToken(cfg, g, steps, rng, w);
    forall n: nat
      ensures !Mates(s, PairDrawn(s, rng, n))
    {
      OneGenderNoMates(cfg, s, gender, PairDrawn(s, rng, n));
    }
  }

  lemma OneGenderNoMates(cfg: Config, s: State, gender: Gender, pair: (TokenId, TokenId))
    requires Accounted(cfg, s)
    requires forall kitty | kitty in BookOf(s).kitties :: GenderOf(kitty.dna) == gender
    ensures !Mates(s, pair)
  {
    var kitties := BookOf(s).kitties;
    if KnownPair(s, pair) {
      assert kitties[pair.0] in kitties && kitties[pair.1] in kitties;
    }
  }

  /** No candidate is hashed twice in one worker run, and none overflows. */
  lemma TrialsAreDistinct(prefix: U32, i: nat, j: nat)
    requires i < j < 500
    ensures Difficulty.Candidate(prefix, i) != Difficulty.Candidate(prefix, j)
    ensures Difficulty.Candidate(prefix, i) == prefix * 0x1_0000_0000 + i
  {
    Difficulty.CandidatesDistinct(prefix, prefix, i, j);
    Difficulty.CandidateUnpacks(prefix, i);
  }

  // ----- Miner, validator and dispatcher agree over time -----

  /** The kitty that breeding `call` in `s` with `selector` gives. */
  ghost function Offspring(s: State, call: Call, selector: Bytes16): Event
    requires call.AutoBreed? && Known(s, call.id1) && Known(s, call.id2)
  {
    KittyBred(s.nft.tokens[(s.classId, call.id1)].owner, KittyCount(s),
              Combine(DnaOf(s, call.id1), DnaOf(s, call.id2), selector))
  }

  /**
   What the worker submits, having looked at an old state, is accepted in any later state of the chain
   exactly when the stored nonce is still the one it saw; the extrinsic then breeds the two kitties it
   chose, with the DNA it saw, for the present owner of the first, unless the id space is exhausted.
   */
  lemma OldWorkStillGood(cfg: Config, g: State, first: seq<Step>, second: seq<Step>, rng: Rng, w: WorkerRun,
                         random: Bytes16)
    requires IsGenesis(g)
    requires Mines(cfg, Run(cfg, g, first), true, rng, w) && w.submitted.Some?
    ensures var s, s' := Run(cfg, g, first), Run(cfg, g, first + second);
            var call := w.submitted.value;
            var after := Next(cfg, s', UnsignedExtrinsic(call, random));
            && call.AutoBreed? && Known(s', call.id1) && Known(s', call.id2)
            && DnaOf(s', call.id1) == DnaOf(s, call.id1) && DnaOf(s', call.id2) == DnaOf(s, call.id2)
            && (ValidateUnsigned(cfg, s', call).1 == Valid <==> s'.nonce == s.nonce)
            && (s'.nonce != s.nonce ==> after == s')
            && (s'.nonce == s.nonce ==>
                  && after.nonce == SaturatingSucc(s'.nonce)
                  && after.log == if KittyCount(s') < U32_MAX then s'.log + [Offspring(s', call, random)] else s'.log)
  {
    var s, s', call := Run(cfg, g, first), Run(cfg, g, first + second), w.submitted.value;
    LogAccountsForState(cfg, g, first + second);
    SupplyIsPermanent(cfg, g, first, second);
    SubmissionSound(cfg, s, rng, w);
    AcceptedWorkBreeds(cfg, s', call, random);
  }

  lemma SubmissionSound(cfg: Config, s: State, rng: Rng, w: WorkerRun)
    requires Mines(cfg, s, true, rng, w) && w.submitted.Some?
    ensures var call := w.submitted.value;
            && call.AutoBreed? && call.nonce == s.nonce && Mates(s, (call.id1, call.id2))
            && ValidSolution(cfg, call.id1, call.id2, call.nonce, call.solution)
  {
  }

  lemma AcceptedWorkBreeds(cfg: Config, s: State, call: Call, random: Bytes16)
    requires Accounted(cfg, s)
    requires call.AutoBreed? && Mates(s, (call.id1, call.id2))
    requires ValidSolution(cfg, call.id1, call.id2, call.nonce, call.solution)
    ensures var after := Next(cfg, s, UnsignedExtrinsic(call, random));
            && (ValidateUnsigned(cfg, s, call).1 == Valid <==> s.nonce == call.nonce)
            && (s.nonce != call.nonce ==> after == s)
            && (s.nonce == call.nonce ==>
                  && after.nonce == SaturatingSucc(s.nonce)
                  && after.log == if KittyCount(s) < U32_MAX then s.log + [Offspring(s, call, random)] else s.log)
  {
  }
}
