/** The auto-breed nonce: which validations a run accepts, and in what order. */
module Nonces {
  import opened Base
  import opened Kitties
  import opened Runs
  import opened Mining

  predicate IsAccepted(cfg: Config, s: State, step: Step) {
    step.UnsignedExtrinsic? && ValidateUnsigned(cfg, s, step.call).1 == Valid
  }

  /** The nonces of the accepted validations of a run, in order. */
  ghost function AcceptedNonces(cfg: Config, g: State, steps: seq<Step>): seq<U32> {
    if steps == [] then []
    else
      var init, step := steps[..|steps| - 1], steps[|steps| - 1];
      AcceptedNonces(cfg, g, init) + if IsAccepted(cfg, Run(cfg, g, init), step) then [step.call.nonce] else []
  }

  function Saturate(n: nat): U32 {
    if n <= U32_MAX then n else U32_MAX
  }

  lemma StepNonce(cfg: Config, s: State, step: Step)
    ensures IsAccepted(cfg, s, step) ==> step.call.AutoBreed? && step.call.nonce == s.nonce
    ensures Next(cfg, s, step).nonce == if IsAccepted(cfg, s, step) then SaturatingSucc(s.nonce) else s.nonce
  {
  }

  /** Accepted nonces appear in the order 0, 1, 2, ... up to saturation, and the stored nonce counts them. */
  lemma {:induction false} NoncesInOrder(cfg: Config, g: State, steps: seq<Step>)
    requires IsGenesis(g)
    ensures var accepted := AcceptedNonces(cfg, g, steps);
            && Run(cfg, g, steps).nonce == Saturate(|accepted|)
            && forall i | 0 <= i < |accepted| :: accepted[i] == Saturate(i)
  {
    if steps != [] {
      var init := steps[..|steps| - 1];
      NoncesInOrder(cfg, g, init);
      StepNonce(cfg, Run(cfg, g, init), steps[|steps| - 1]);
    }
  }

  /** A nonce is accepted twice in a run only when it is the saturated one. */
  lemma NonceAcceptedOnce(cfg: Config, g: State, steps: seq<Step>, i: nat, j: nat)
    requires IsGenesis(g) && i < j < |AcceptedNonces(cfg, g, steps)|
    requires AcceptedNonces(cfg, g, steps)[i] == AcceptedNonces(cfg, g, steps)[j]
    ensures AcceptedNonces(cfg, g, steps)[i] == U32_MAX
  {
    NoncesInOrder(cfg, g, steps);
  }

  /** Kitties bred by unsigned extrinsics during a run. */
  ghost function AutoBredCount(cfg: Config, g: State, steps: seq<Step>): nat {
    if steps == [] then 0
    else
      var init, step := steps[..|steps| - 1], steps[|steps| - 1];
      AutoBredCount(cfg, g, init)
      + if step.UnsignedExtrinsic? && Run(cfg, g, steps).log != Run(cfg, g, init).log then 1 else 0
  }

  /** The validator never looks at the kitties: an accepted call whose pair cannot breed, or finds no id left. */
  predicate IsWasted(cfg: Config, s: State, step: Step) {
    && IsAccepted(cfg, s, step) && step.call.AutoBreed?
    && (Mates(s, (step.call.id1, step.call.id2)) ==> KittyCount(s) == U32_MAX)
  }

  ghost function WastedCount(cfg: Config, g: State, steps: seq<Step>): nat {
    if steps == [] then 0
    else
      var init, step := steps[..|steps| - 1], steps[|steps| - 1];
      WastedCount(cfg, g, init) + if IsWasted(cfg, Run(cfg, g, init), step) then 1 else 0
  }

  lemma AcceptedBreedsOrWasted(cfg: Config, s: State, step: Step)
    requires Accounted(cfg, s) && step.UnsignedExtrinsic?
    ensures Next(cfg, s, step).log != s.log <==> IsAccepted(cfg, s, step) && !IsWasted(cfg, s, step)
  {
    if IsAccepted(cfg, s, step) && Mates(s, (step.call.id1, step.call.id2)) {
      AcceptedWorkBreeds(cfg, s, step.call, step.random);
    }
  }

  /** Every accepted validation has bred exactly one kitty or was wasted. */
  lemma {:induction false} AutoBredPlusWasted(cfg: Config, g: State, steps: seq<Step>)
    requires IsGenesis(g)
    ensures AutoBredCount(cfg, g, steps) + WastedCount(cfg, g, steps) == |AcceptedNonces(cfg, g, steps)|
  {
    if steps != [] {
      var init, step := steps[..|steps| - 1], steps[|steps| - 1];
      AutoBredPlusWasted(cfg, g, init);
      LogAccountsForState(cfg, g, init);
      if step.UnsignedExtrinsic? {
        AcceptedBreedsOrWasted(cfg, Run(cfg, g, init), step);
      }
    }
  }

  /** Below saturation the stored nonce is the number of auto-bred kitties plus that of wasted validations. */
  lemma AutoBredAtMostNonce(cfg: Config, g: State, steps: seq<Step>)
    requires IsGenesis(g) && Run(cfg, g, steps).nonce < U32_MAX
    ensures AutoBredCount(cfg, g, steps) + WastedCount(cfg, g, steps) == Run(cfg, g, steps).nonce
    ensures AutoBredCount(cfg, g, steps) <= Run(cfg, g, steps).nonce
  {
    AutoBredPlusWasted(cfg, g, steps);
    NoncesInOrder(cfg, g, steps);
  }

  lemma {:induction false} AcceptedAppend(cfg: Config, g: State, first: seq<Step>, second: seq<Step>)
    ensures AcceptedNonces(cfg, g, first + second)
         == AcceptedNonces(cfg, g, first) + AcceptedNonces(cfg, Run(cfg, g, first), second)
  {
    if second == [] {
      assert first + second == first;
    } else {
      var steps := first + second;
      var init := second[..|second| - 1];
      assert steps[..|steps| - 1] == first + init;
      AcceptedAppend(cfg, g, first, init);
      RunAppend(cfg, g, first, init);
    }
  }

  /** The nonce a miner saw is still stored exactly when nothing was accepted since, or it was saturated. */
  lemma NonceUnchangedIff(cfg: Config, g: State, first: seq<Step>, second: seq<Step>)
    requires IsGenesis(g)
    ensures var s, s' := Run(cfg, g, first), Run(cfg, g, first + second);
            s'.nonce == s.nonce <==> s.nonce == U32_MAX || AcceptedNonces(cfg, s, second) == []
  {
    NoncesInOrder(cfg, g, first);
    NoncesInOrder(cfg, g, first + second);
    AcceptedAppend(cfg, g, first, second);
  }

  // ----- Replay -----

  /** Some call with this nonce carries a valid solution. */
  ghost predicate Passable(cfg: Config, nonce: U32) {
    exists id1: TokenId, id2: TokenId, solution: U128 :: ValidSolution(cfg, id1, id2, nonce, solution)
  }

  /** A nonce that occurs at two places of the accepted ones. */
  ghost predicate AcceptedTwice(cfg: Config, g: State, steps: seq<Step>, nonce: U32) {
    var accepted := AcceptedNonces(cfg, g, steps);
    exists i, j :: 0 <= i < j < |accepted| && accepted[i] == accepted[j] == nonce
  }

  lemma {:induction false} AcceptedArePassable(cfg: Config, g: State, steps: seq<Step>)
    ensures forall i | 0 <= i < |AcceptedNonces(cfg, g, steps)| :: Passable(cfg, AcceptedNonces(cfg, g, steps)[i])
  {
    if steps != [] {
      AcceptedArePassable(cfg, g, steps[..|steps| - 1]);
    }
  }

  lemma {:induction false} RunAccepting(cfg: Config, g: State, n: nat) returns (steps: seq<Step>)
    requires IsGenesis(g) && forall m: nat | m < n :: Passable(cfg, Saturate(m))
    ensures |AcceptedNonces(cfg, g, steps)| == n
  {
    if n == 0 {
      steps := [];
    } else {
      var init := RunAccepting(cfg, g, n - 1);
      NoncesInOrder(cfg, g, init);
      var nonce := Saturate(n - 1);
      var id1: TokenId, id2: TokenId, solution: U128 :| ValidSolution(cfg, id1, id2, nonce, solution);
      steps := init + [UnsignedExtrinsic(AutoBreed(id1, id2, nonce, solution), seq(16, _ => 0))];
      assert steps[..|steps| - 1] == init;
    }
  }

  /** A run can accept `n` validations exactly when the first `n` nonces all are passable, whatever the hash. */
  lemma AcceptableCount(cfg: Config, g: State, n: nat)
    requires IsGenesis(g)
    ensures (exists steps :: |AcceptedNonces(cfg, g, steps)| == n)
       <==> forall m: nat | m < n :: Passable(cfg, Saturate(m))
  {
    if forall m: nat | m < n :: Passable(cfg, Saturate(m)) {
      var steps := RunAccepting(cfg, g, n);
    }
    forall steps, m: nat | |AcceptedNonces(cfg, g, steps)| == n && m < n
      ensures Passable(cfg, Saturate(m))
    {
      AcceptedArePassable(cfg, g, steps);
      NoncesInOrder(cfg, g, steps);
    }
  }

  /**
   The nonce is there to prevent replay.  For every hash function, a nonce is accepted twice in some run
   exactly when it is the saturated one and no nonce stops the chain from getting there.
   */
  lemma ReplayableIffSaturated(cfg: Config, g: State, nonce: U32)
    requires IsGenesis(g)
    ensures (exists steps :: AcceptedTwice(cfg, g, steps, nonce))
       <==> nonce == U32_MAX && forall n: U32 :: Passable(cfg, n)
  {
    if nonce == U32_MAX && forall n: U32 :: Passable(cfg, n) {
      var steps := RunAccepting(cfg, g, U32_MAX + 2);
      NoncesInOrder(cfg, g, steps);
      var accepted := AcceptedNonces(cfg, g, steps);
      assert accepted[U32_MAX] == accepted[U32_MAX + 1] == nonce;
      assert AcceptedTwice(cfg, g, steps, nonce);
    }
    forall steps | AcceptedTwice(cfg, g, steps, nonce)
      ensures nonce == U32_MAX && forall n: U32 :: Passable(cfg, n)
    {
      TwiceNeedsAll(cfg, g, steps, nonce);
    }
  }

  lemma TwiceNeedsAll(cfg: Config, g: State, steps: seq<Step>, nonce: U32)
    requires IsGenesis(g) && AcceptedTwice(cfg, g, steps, nonce)
    ensures nonce == U32_MAX && forall n: U32 :: Passable(cfg, n)
  {
    NoncesInOrder(cfg, g, steps);
    AcceptedArePassable(cfg, g, steps);
    var accepted := AcceptedNonces(cfg, g, steps);
    assert |accepted| > U32_MAX;
    forall n: U32
      ensures Passable(cfg, n)
    {
      assert accepted[n] == n;
    }
  }
}
