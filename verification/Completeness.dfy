/**
 What the pallet can emit, exactly.  The logs of runs are described by the book and the number of accepted
 validations alone, for every hash function.
 */
module Completeness {
  import opened Base
  import opened Genetics
  import opened Kitties
  import opened Ledger
  import opened Runs
  import opened Lineage
  import opened Mining
  import opened Nonces
  import Difficulty

  // ----- What can come next -----

  ghost predicate BearsOwn(b: Book, owner: Account, dna: Dna, id1: TokenId, id2: TokenId, selector: Bytes16) {
    Bears(b, owner, dna, id1, id2, selector) && Owns(b, owner, id2)
  }

  /** What a signed extrinsic can emit: of the children, only those of two kitties of one owner. */
  ghost predicate SignedLegal(existentialDeposit: Balance, b: Book, e: Event) {
    && Legal(existentialDeposit, b, e)
    && (e.KittyBred? ==> exists id1: TokenId, id2: TokenId, selector: Bytes16 ::
          BearsOwn(b, e.owner, e.dna, id1, id2, selector))
  }

  ghost predicate BearsSolved(cfg: Config, b: Book, e: Event, nonce: U32, id1: TokenId, id2: TokenId,
                              selector: Bytes16, solution: U128)
    requires e.KittyBred?
  {
    Bears(b, e.owner, e.dna, id1, id2, selector) && ValidSolution(cfg, id1, id2, nonce, solution)
  }

  /** What an unsigned extrinsic can emit: a child of any two mates that have a solution for the nonce. */
  ghost predicate AutoLegal(cfg: Config, b: Book, e: Event, nonce: U32) {
    && e.KittyBred? && e.id == |b.kitties| < U32_MAX
    && exists id1: TokenId, id2: TokenId, selector: Bytes16, solution: U128 ::
         BearsSolved(cfg, b, e, nonce, id1, id2, selector, solution)
  }

  ghost predicate Barren(b: Book, id1: TokenId, id2: TokenId) {
    || id1 >= |b.kitties| || id2 >= |b.kitties| || |b.kitties| == U32_MAX
    || GenderOf(b.kitties[id1].dna) == GenderOf(b.kitties[id2].dna)
  }

  ghost predicate Wastes(cfg: Config, b: Book, nonce: U32, id1: TokenId, id2: TokenId, solution: U128) {
    ValidSolution(cfg, id1, id2, nonce, solution) && Barren(b, id1, id2)
  }

  /** A validation can be accepted without any event. */
  ghost predicate Wasteful(cfg: Config, b: Book, nonce: U32) {
    exists id1: TokenId, id2: TokenId, solution: U128 :: Wastes(cfg, b, nonce, id1, id2, solution)
  }

  /** The log can be told with `n` accepted validations. */
  ghost predicate Tellable(cfg: Config, log: seq<Event>, n: nat)
    decreases |log|, n
  {
    || (log == [] && n == 0)
    || (&& log != [] && Tellable(cfg, log[..|log| - 1], n)
        && SignedLegal(cfg.existentialDeposit, Replay(log[..|log| - 1]), log[|log| - 1]))
    || (&& log != [] && n > 0 && Tellable(cfg, log[..|log| - 1], n - 1)
        && AutoLegal(cfg, Replay(log[..|log| - 1]), log[|log| - 1], Saturate(n - 1)))
    || (n > 0 && Tellable(cfg, log, n - 1) && Wasteful(cfg, Replay(log), Saturate(n - 1)))
  }

  // ----- Every run can be told -----

  lemma SignedTells(cfg: Config, s: State, step: Step, n: nat)
    requires Accounted(cfg, s) && !step.UnsignedExtrinsic? && Tellable(cfg, s.log, n)
    ensures Tellable(cfg, Next(cfg, s, step).log, n)
  {
    var s' := Next(cfg, s, step);
    if !step.External? {
      StepExplained(cfg, s, BookOf(s), step);
      if s'.log != s.log {
        assert s'.log[..|s'.log| - 1] == s.log;
        if s'.log[|s.log|].KittyBred? {
          BredBySigned(cfg, s, step);
        }
      }
    }
  }

  lemma BredBySigned(cfg: Config, s: State, step: Step)
    requires Accounted(cfg, s) && !step.External? && !step.UnsignedExtrinsic?
    requires var s' := Next(cfg, s, step); |s'.log| == |s.log| + 1 && s'.log[|s.log|].KittyBred?
    ensures step.call.Breed?
    ensures var e := Next(cfg, s, step).log[|s.log|];
            BearsOwn(BookOf(s), e.owner, e.dna, step.call.id1, step.call.id2, step.random)
  {
    BredStep(cfg, s, step);
  }

  lemma AcceptedTells(cfg: Config, s: State, step: Step, n: nat)
    requires Accounted(cfg, s) && IsAccepted(cfg, s, step) && Tellable(cfg, s.log, n) && s.nonce == Saturate(n)
    ensures Tellable(cfg, Next(cfg, s, step).log, n + 1)
  {
    var s', b, call := Next(cfg, s, step), BookOf(s), step.call;
    AcceptedBreedsOrWasted(cfg, s, step);
    if s'.log == s.log {
      WastedIsBarren(cfg, s, step);
      assert Wastes(cfg, b, s.nonce, call.id1, call.id2, call.solution);
    } else {
      StepExplained(cfg, s, b, step);
      AcceptedWorkBreeds(cfg, s, call, step.random);
      BredStep(cfg, s, step);
      assert s'.log[..|s'.log| - 1] == s.log;
      assert BearsSolved(cfg, b, s'.log[|s.log|], s.nonce, call.id1, call.id2, step.random, call.solution);
    }
  }

  lemma WastedIsBarren(cfg: Config, s: State, step: Step)
    requires Accounted(cfg, s) && IsWasted(cfg, s, step)
    ensures Barren(BookOf(s), step.call.id1, step.call.id2)
  {
  }

  lemma StepTells(cfg: Config, s: State, step: Step, n: nat)
    requires Accounted(cfg, s) && Tellable(cfg, s.log, n) && s.nonce == Saturate(n)
    ensures Tellable(cfg, Next(cfg, s, step).log, if IsAccepted(cfg, s, step) then n + 1 else n)
  {
    if IsAccepted(cfg, s, step) {
      AcceptedTells(cfg, s, step, n);
    } else if !step.UnsignedExtrinsic? {
      SignedTells(cfg, s, step, n);
    }
  }

  lemma {:induction false} RunIsTellable(cfg: Config, g: State, steps: seq<Step>)
    requires IsGenesis(g)
    ensures Tellable(cfg, Run(cfg, g, steps).log, |AcceptedNonces(cfg, g, steps)|)
  {
    if steps == [] {
      assert Tellable(cfg, [], 0);
    } else {
      var init, step := steps[..|steps| - 1], steps[|steps| - 1];
      var s, n := Run(cfg, g, init), |AcceptedNonces(cfg, g, init)|;
      var n' := if IsAccepted(cfg, s, step) then n + 1 else n;
      assert |AcceptedNonces(cfg, g, steps)| == n';
      assert Tellable(cfg, Next(cfg, s, step).log, n') by {
        RunIsTellable(cfg, g, init);
        LogAccountsForState(cfg, g, init);
        NoncesInOrder(cfg, g, init);
        StepTells(cfg, s, step, n);
      }
    }
  }

  // ----- Everything that can be told has a run -----

  ghost predicate NoneUnsigned(steps: seq<Step>) {
    forall step | step in steps :: !step.UnsignedExtrinsic?
  }

  lemma {:induction false} NoneUnsignedNoneAccepted(cfg: Config, s: State, steps: seq<Step>)
    requires NoneUnsigned(steps)
    ensures AcceptedNonces(cfg, s, steps) == []
  {
    if steps != [] {
      NoneUnsignedNoneAccepted(cfg, s, steps[..|steps| - 1]);
    }
  }

  lemma EmitCreated(cfg: Config, s: State, e: Event) returns (steps: seq<Step>)
    requires Accounted(cfg, s) && e.KittyCreated? && Legal(cfg.existentialDeposit, BookOf(s), e)
    ensures Run(cfg, s, steps).log == s.log + [e] && NoneUnsigned(steps)
  {
    var step := SignedExtrinsic(e.owner, Create, e.dna);
    steps := [step];
    OneStep(cfg, s, step);
  }

  lemma EmitBredBySigned(cfg: Config, s: State, e: Event) returns (steps: seq<Step>)
    requires Accounted(cfg, s) && e.KittyBred? && SignedLegal(cfg.existentialDeposit, BookOf(s), e)
    ensures Run(cfg, s, steps).log == s.log + [e] && NoneUnsigned(steps)
  {
    var id1: TokenId, id2: TokenId, selector: Bytes16 :| BearsOwn(BookOf(s), e.owner, e.dna, id1, id2, selector);
    var step := SignedExtrinsic(e.owner, Breed(id1, id2), selector);
    steps := [step];
    OneStep(cfg, s, step);
    OwnParents(cfg, s, e, id1, id2, selector);
    OwnChild(cfg, s, e, id1, id2, selector);
  }

  lemma OwnParents(cfg: Config, s: State, e: Event, id1: TokenId, id2: TokenId, selector: Bytes16)
    requires Accounted(cfg, s) && e.KittyBred? && BearsOwn(BookOf(s), e.owner, e.dna, id1, id2, selector)
    ensures KittyOf(s, e.owner, id1) == Some(BookOf(s).kitties[id1].dna)
    ensures KittyOf(s, e.owner, id2) == Some(BookOf(s).kitties[id2].dna)
  {
  }

  lemma OwnChild(cfg: Config, s: State, e: Event, id1: TokenId, id2: TokenId, selector: Bytes16)
    requires Accounted(cfg, s) && e.KittyBred? && e.id == |BookOf(s).kitties| < U32_MAX
    requires BearsOwn(BookOf(s), e.owner, e.dna, id1, id2, selector)
    ensures var kitties := BookOf(s).kitties;
            DoBreed(s, e.owner, kitties[id1].dna, kitties[id2].dna, selector).state.log == s.log + [e]
  {
    MintAppends(s.nft, e.owner, s.classId, e.dna, BookOf(s).kitties);
  }

  lemma EmitTransferred(cfg: Config, s: State, e: Event) returns (steps: seq<Step>)
    requires Accounted(cfg, s) && e.KittyTransferred? && Legal(cfg.existentialDeposit, BookOf(s), e)
    ensures Run(cfg, s, steps).log == s.log + [e] && NoneUnsigned(steps)
  {
    var step := SignedExtrinsic(e.from, Call.Transfer(e.to, e.id), seq(16, _ => 0));
    steps := [step];
    OneStep(cfg, s, step);
    TransferMoves(s.nft, e.from, e.to, s.classId, e.id, BookOf(s).kitties);
  }

  lemma EmitPriceUpdated(cfg: Config, s: State, e: Event) returns (steps: seq<Step>)
    requires Accounted(cfg, s) && e.KittyPriceUpdated? && Legal(cfg.existentialDeposit, BookOf(s), e)
    ensures Run(cfg, s, steps).log == s.log + [e] && NoneUnsigned(steps)
  {
    var step := SignedExtrinsic(e.owner, SetPrice(e.id, e.price), seq(16, _ => 0));
    steps := [step];
    OneStep(cfg, s, step);
  }

  /** The buyer and the seller are first given the balances the payment needs. */
  lemma EmitSold(cfg: Config, s: State, e: Event) returns (steps: seq<Step>)
    requires Accounted(cfg, s) && e.KittySold? && Legal(cfg.existentialDeposit, BookOf(s), e)
    ensures Run(cfg, s, steps).log == s.log + [e] && NoneUnsigned(steps)
  {
    var buy := SignedExtrinsic(e.to, Buy(e.from, e.id, e.paid), seq(16, _ => 0));
    if e.paid == 0 {
      steps := [buy];
      OneStep(cfg, s, buy);
      BuyOutcome(cfg, s, BookOf(s), e.to, e.from, e.id, e.paid);
    } else {
      var fund1 := External(e.to, e.paid + cfg.existentialDeposit);
      var fund2 := External(e.from, cfg.existentialDeposit);
      var s1 := Next(cfg, s, fund1);
      var s2 := Next(cfg, s1, fund2);
      steps := [fund1] + ([fund2] + [buy]);
      OneStep(cfg, s, fund1);
      OneStep(cfg, s1, fund2);
      OneStep(cfg, s2, buy);
      RunAppend(cfg, s1, [fund2], [buy]);
      RunAppend(cfg, s, [fund1], [fund2] + [buy]);
      BuyOutcome(cfg, s2, BookOf(s), e.to, e.from, e.id, e.paid);
    }
  }

  lemma OneStep(cfg: Config, s: State, step: Step)
    ensures Run(cfg, s, [step]) == Next(cfg, s, step)
  {
    assert [step][..0] == [];
    assert Run(cfg, s, []) == s;
  }

  lemma EmitSigned(cfg: Config, s: State, e: Event) returns (steps: seq<Step>)
    requires Accounted(cfg, s) && SignedLegal(cfg.existentialDeposit, BookOf(s), e)
    ensures Run(cfg, s, steps).log == s.log + [e] && NoneUnsigned(steps)
  {
    match e
    case KittyCreated(_, _, _) => steps := EmitCreated(cfg, s, e);
    case KittyBred(_, _, _) => steps := EmitBredBySigned(cfg, s, e);
    case KittyTransferred(_, _, _) => steps := EmitTransferred(cfg, s, e);
    case KittyPriceUpdated(_, _, _) => steps := EmitPriceUpdated(cfg, s, e);
    case KittySold(_, _, _, _) => steps := EmitSold(cfg, s, e);
  }

  lemma EmitAuto(cfg: Config, s: State, e: Event) returns (step: Step)
    requires Accounted(cfg, s) && AutoLegal(cfg, BookOf(s), e, s.nonce)
    ensures Next(cfg, s, step).log == s.log + [e] && IsAccepted(cfg, s, step)
  {
    var id1: TokenId, id2: TokenId, selector: Bytes16, solution: U128 :|
      BearsSolved(cfg, BookOf(s), e, s.nonce, id1, id2, selector, solution);
    var call := Call.AutoBreed(id1, id2, s.nonce, solution);
    step := UnsignedExtrinsic(call, selector);
    BearsOffspring(cfg, s, e, call, selector);
    AcceptedWorkBreeds(cfg, s, call, selector);
  }

  lemma BearsOffspring(cfg: Config, s: State, e: Event, call: Call, selector: Bytes16)
    requires Accounted(cfg, s) && e.KittyBred? && e.id == |BookOf(s).kitties| < U32_MAX && call.AutoBreed?
    requires Bears(BookOf(s), e.owner, e.dna, call.id1, call.id2, selector)
    ensures Mates(s, (call.id1, call.id2)) && KittyCount(s) < U32_MAX
    ensures Offspring(s, call, selector) == e
  {
  }

  lemma Waste(cfg: Config, s: State) returns (step: Step)
    requires Accounted(cfg, s) && Wasteful(cfg, BookOf(s), s.nonce)
    ensures Next(cfg, s, step).log == s.log && IsAccepted(cfg, s, step)
  {
    var id1: TokenId, id2: TokenId, solution: U128 :| Wastes(cfg, BookOf(s), s.nonce, id1, id2, solution);
    step := UnsignedExtrinsic(Call.AutoBreed(id1, id2, s.nonce, solution), seq(16, _ => 0));
    BarrenIsWasted(cfg, s, step);
    AcceptedBreedsOrWasted(cfg, s, step);
  }

  lemma BarrenIsWasted(cfg: Config, s: State, step: Step)
    requires Accounted(cfg, s) && IsAccepted(cfg, s, step) && step.call.AutoBreed?
    requires Barren(BookOf(s), step.call.id1, step.call.id2)
    ensures IsWasted(cfg, s, step)
  {
  }

  lemma ExtendSigned(cfg: Config, g: State, init: seq<Step>, e: Event) returns (steps: seq<Step>)
    requires IsGenesis(g) && SignedLegal(cfg.existentialDeposit, Replay(Run(cfg, g, init).log), e)
    ensures Run(cfg, g, steps).log == Run(cfg, g, init).log + [e]
    ensures AcceptedNonces(cfg, g, steps) == AcceptedNonces(cfg, g, init)
    ensures NoneUnsigned(init) ==> NoneUnsigned(steps)
  {
    LogAccountsForState(cfg, g, init);
    var s := Run(cfg, g, init);
    var last := EmitSigned(cfg, s, e);
    steps := init + last;
    RunAppend(cfg, g, init, last);
    AcceptedAppend(cfg, g, init, last);
    NoneUnsignedNoneAccepted(cfg, s, last);
  }

  lemma ExtendAccepted(cfg: Config, g: State, init: seq<Step>, step: Step)
    requires IsAccepted(cfg, Run(cfg, g, init), step)
    ensures Run(cfg, g, init + [step]) == Next(cfg, Run(cfg, g, init), step)
    ensures |AcceptedNonces(cfg, g, init + [step])| == |AcceptedNonces(cfg, g, init)| + 1
  {
    assert (init + [step])[..|init|] == init;
  }

  lemma ExtendWasted(cfg: Config, g: State, init: seq<Step>) returns (steps: seq<Step>)
    requires IsGenesis(g)
    requires var s := Run(cfg, g, init); Wasteful(cfg, Replay(s.log), Saturate(|AcceptedNonces(cfg, g, init)|))
    ensures Run(cfg, g, steps).log == Run(cfg, g, init).log
    ensures |AcceptedNonces(cfg, g, steps)| == |AcceptedNonces(cfg, g, init)| + 1
  {
    LogAccountsForState(cfg, g, init);
    NoncesInOrder(cfg, g, init);
    var step := Waste(cfg, Run(cfg, g, init));
    ExtendAccepted(cfg, g, init, step);
    steps := init + [step];
  }

  lemma ExtendAuto(cfg: Config, g: State, init: seq<Step>, e: Event) returns (steps: seq<Step>)
    requires IsGenesis(g)
    requires var s := Run(cfg, g, init); AutoLegal(cfg, Replay(s.log), e, Saturate(|AcceptedNonces(cfg, g, init)|))
    ensures Run(cfg, g, steps).log == Run(cfg, g, init).log + [e]
    ensures |AcceptedNonces(cfg, g, steps)| == |AcceptedNonces(cfg, g, init)| + 1
  {
    LogAccountsForState(cfg, g, init);
    NoncesInOrder(cfg, g, init);
    var step := EmitAuto(cfg, Run(cfg, g, init), e);
    ExtendAccepted(cfg, g, init, step);
    steps := init + [step];
  }

  lemma {:induction false} TellWasted(cfg: Config, g: State, log: seq<Event>, n: nat) returns (steps: seq<Step>)
    requires IsGenesis(g) && n > 0 && Tellable(cfg, log, n - 1) && Wasteful(cfg, Replay(log), Saturate(n - 1))
    ensures Run(cfg, g, steps).log == log && |AcceptedNonces(cfg, g, steps)| == n
    decreases |log|, n, 0
  {
    var init := TellableHasRun(cfg, g, log, n - 1);
    steps := ExtendWasted(cfg, g, init);
  }

  lemma {:induction false} TellSigned(cfg: Config, g: State, log: seq<Event>, e: Event, n: nat)
    returns (steps: seq<Step>)
    requires IsGenesis(g) && Tellable(cfg, log, n) && SignedLegal(cfg.existentialDeposit, Replay(log), e)
    ensures Run(cfg, g, steps).log == log + [e] && |AcceptedNonces(cfg, g, steps)| == n
    ensures n == 0 ==> NoneUnsigned(steps)
    decreases |log| + 1, n, 0
  {
    var init := TellableHasRun(cfg, g, log, n);
    steps := ExtendSigned(cfg, g, init, e);
  }

  lemma {:induction false} TellAuto(cfg: Config, g: State, log: seq<Event>, e: Event, n: nat)
    returns (steps: seq<Step>)
    requires IsGenesis(g) && n > 0 && Tellable(cfg, log, n - 1) && AutoLegal(cfg, Replay(log), e, Saturate(n - 1))
    ensures Run(cfg, g, steps).log == log + [e] && |AcceptedNonces(cfg, g, steps)| == n
    decreases |log| + 1, n, 0
  {
    var init := TellableHasRun(cfg, g, log, n - 1);
    steps := ExtendAuto(cfg, g, init, e);
  }

  /** The run that tells a log; without accepted validations it needs no unsigned extrinsic at all. */
  lemma {:induction false} TellableHasRun(cfg: Config, g: State, log: seq<Event>, n: nat) returns (steps: seq<Step>)
    requires IsGenesis(g) && Tellable(cfg, log, n)
    ensures Run(cfg, g, steps).log == log && |AcceptedNonces(cfg, g, steps)| == n
    ensures n == 0 ==> NoneUnsigned(steps)
    decreases |log|, n, 1
  {
    if log == [] && n == 0 {
      steps := [];
    } else if n > 0 && Tellable(cfg, log, n - 1) && Wasteful(cfg, Replay(log), Saturate(n - 1)) {
      steps := TellWasted(cfg, g, log, n);
    } else {
      var before, e := log[..|log| - 1], log[|log| - 1];
      assert log == before + [e];
      if Tellable(cfg, before, n) && SignedLegal(cfg.existentialDeposit, Replay(before), e) {
        steps := TellSigned(cfg, g, before, e, n);
      } else {
        steps := TellAuto(cfg, g, before, e, n);
      }
    }
  }

  // ----- The theorems -----

  /**
   For every hash function: a sequence of events is the log of some run with `n` accepted validations
   exactly when it can be told so from the book.
   */
  lemma EmittableIffTellable(cfg: Config, g: State, log: seq<Event>, n: nat)
    requires IsGenesis(g)
    ensures (exists steps :: Run(cfg, g, steps).log == log && |AcceptedNonces(cfg, g, steps)| == n)
       <==> Tellable(cfg, log, n)
  {
    if Tellable(cfg, log, n) {
      var steps := TellableHasRun(cfg, g, log, n);
    }
    forall steps | Run(cfg, g, steps).log == log && |AcceptedNonces(cfg, g, steps)| == n
      ensures Tellable(cfg, log, n)
    {
      RunIsTellable(cfg, g, steps);
    }
  }

  ghost predicate SignedLegalLog(existentialDeposit: Balance, log: seq<Event>) {
    log != [] ==>
      && SignedLegalLog(existentialDeposit, log[..|log| - 1])
      && SignedLegal(existentialDeposit, Replay(log[..|log| - 1]), log[|log| - 1])
  }

  lemma {:induction false} TellableWithoutMining(cfg: Config, log: seq<Event>)
    ensures Tellable(cfg, log, 0) <==> SignedLegalLog(cfg.existentialDeposit, log)
  {
    if log != [] {
      TellableWithoutMining(cfg, log[..|log| - 1]);
    }
  }

  /**
   For every hash function: a sequence of events is the log of some run without unsigned extrinsics exactly
   when every event is legal in its place and every bred kitty has two parents of its owner's.
   */
  lemma SignedEmittableIffLegal(cfg: Config, g: State, log: seq<Event>)
    requires IsGenesis(g)
    ensures (exists steps :: NoneUnsigned(steps) && Run(cfg, g, steps).log == log)
       <==> SignedLegalLog(cfg.existentialDeposit, log)
  {
    TellableWithoutMining(cfg, log);
    if SignedLegalLog(cfg.existentialDeposit, log) {
      var steps := TellableHasRun(cfg, g, log, 0);
    }
    forall steps | NoneUnsigned(steps) && Run(cfg, g, steps).log == log
      ensures Tellable(cfg, log, 0)
    {
      RunIsTellable(cfg, g, steps);
      NoneUnsignedNoneAccepted(cfg, g, steps);
    }
  }

  ghost predicate HasSolution(cfg: Config, id1: TokenId, id2: TokenId, nonce: U32) {
    exists solution: U128 :: ValidSolution(cfg, id1, id2, nonce, solution)
  }

  /** The hash function leaves every pair a solution for every nonce. */
  ghost predicate Solvable(cfg: Config) {
    forall id1: TokenId, id2: TokenId, nonce: U32 :: HasSolution(cfg, id1, id2, nonce)
  }

  /** Solutions are needed only for parents of two owners. */
  lemma {:induction false} LegalIsTellable(cfg: Config, log: seq<Event>) returns (n: nat)
    requires LegalLog(cfg.existentialDeposit, log) && Solvable(cfg)
    ensures Tellable(cfg, log, n)
  {
    if log == [] {
      n := 0;
    } else {
      var before, e := log[..|log| - 1], log[|log| - 1];
      n := LegalIsTellable(cfg, before);
      if !SignedLegal(cfg.existentialDeposit, Replay(before), e) {
        LegalIsAutoLegal(cfg, Replay(before), e, Saturate(n));
        n := n + 1;
      }
    }
  }

  lemma LegalIsAutoLegal(cfg: Config, b: Book, e: Event, nonce: U32)
    requires Legal(cfg.existentialDeposit, b, e) && e.KittyBred? && Solvable(cfg)
    ensures AutoLegal(cfg, b, e, nonce)
  {
    var id1: TokenId, id2: TokenId, selector: Bytes16 :| Bears(b, e.owner, e.dna, id1, id2, selector);
    assert HasSolution(cfg, id1, id2, nonce);
    var solution: U128 :| ValidSolution(cfg, id1, id2, nonce, solution);
    assert BearsSolved(cfg, b, e, nonce, id1, id2, selector, solution);
  }

  /**
   Every log is legal; and where the hash function leaves every pair a solution, a sequence of events
   is the log of some run exactly when every event is legal in its place.
   */
  lemma EmittableIffLegal(cfg: Config, g: State, log: seq<Event>)
    requires IsGenesis(g)
    ensures (exists steps :: Run(cfg, g, steps).log == log) ==> LegalLog(cfg.existentialDeposit, log)
    ensures Solvable(cfg) ==>
              ((exists steps :: Run(cfg, g, steps).log == log) <==> LegalLog(cfg.existentialDeposit, log))
  {
    if Solvable(cfg) && LegalLog(cfg.existentialDeposit, log) {
      var n := LegalIsTellable(cfg, log);
      var steps := TellableHasRun(cfg, g, log, n);
    }
    forall steps | Run(cfg, g, steps).log == log
      ensures LegalLog(cfg.existentialDeposit, log)
    {
      LogAccountsForState(cfg, g, steps);
    }
  }

  /** There are such hash functions: one that is always zero solves everything. */
  lemma ZeroHashIsSolvable(cfg: Config)
    requires forall payload :: cfg.blake(payload) == seq(16, _ => 0)
    ensures Solvable(cfg)
  {
    Difficulty.DivBounds(cfg.difficulty);
    Difficulty.ZeroBytes(16);
    forall id1: TokenId, id2: TokenId, nonce: U32
      ensures HasSolution(cfg, id1, id2, nonce)
    {
      assert ValidSolution(cfg, id1, id2, nonce, 0);
    }
  }
}
