/** What every finite run from genesis keeps. */
module Runs {
  import opened Base
  import opened Kitties
  import opened Ledger
  import Currency

  /** The book of a state reached from genesis is the replay of its log. */
  ghost function BookOf(s: State): Book {
    Replay(s.log)
  }

  /** The storage agrees with its log, and the log is legal: so it is in every state reached from genesis. */
  ghost predicate Accounted(cfg: Config, s: State) {
    Represents(s, BookOf(s)) && LegalLog(cfg.existentialDeposit, s.log)
  }

  lemma GenesisAccounted(cfg: Config, g: State)
    requires IsGenesis(g)
    ensures Accounted(cfg, g)
  {
  }

  lemma StepAccounted(cfg: Config, s: State, step: Step)
    requires Accounted(cfg, s)
    ensures var s' := Next(cfg, s, step);
            Accounted(cfg, s') && s'.classId == s.classId && s.log <= s'.log && OnlyClass(s.classId, s.nft, s'.nft)
  {
    var s' := Next(cfg, s, step);
    if !step.External? {
      StepExplained(cfg, s, BookOf(s), step);
      if s'.log != s.log {
        assert s'.log[..|s'.log| - 1] == s.log;
      }
    }
  }

  lemma {:induction false} SuffixAccounted(cfg: Config, s: State, steps: seq<Step>)
    requires Accounted(cfg, s)
    ensures var s' := Run(cfg, s, steps);
            Accounted(cfg, s') && s'.classId == s.classId && s.log <= s'.log && OnlyClass(s.classId, s.nft, s'.nft)
  {
    if steps != [] {
      var init := steps[..|steps| - 1];
      SuffixAccounted(cfg, s, init);
      StepAccounted(cfg, Run(cfg, s, init), steps[|steps| - 1]);
    }
  }

  /**
   The log is a complete account: replaying the events of any run gives exactly the token table, the
   owner index, the token counter and the price map, every event was legal when it was emitted,
   and no token of another class is ever touched.
   */
  lemma LogAccountsForState(cfg: Config, g: State, steps: seq<Step>)
    requires IsGenesis(g)
    ensures var s := Run(cfg, g, steps);
            && Represents(s, Replay(s.log))
            && LegalLog(cfg.existentialDeposit, s.log)
            && s.classId == g.classId
            && OnlyClass(g.classId, g.nft, s.nft)
  {
    GenesisAccounted(cfg, g);
    SuffixAccounted(cfg, g, steps);
  }

  /**
   The two copies of ownership agree, each kitty has exactly one owner, ids are exactly
   those below the counter, and only minted kitties are listed.
   */
  lemma DoubleBookkeeping(cfg: Config, g: State, steps: seq<Step>)
    requires IsGenesis(g)
    ensures var s := Run(cfg, g, steps);
            && (forall o: Account, k: TokenId :: KittyOf(s, o, k).Some? <==> (o, (s.classId, k)) in s.nft.byOwner)
            && (forall o: Account, o': Account, k: TokenId ::
                  (o, (s.classId, k)) in s.nft.byOwner && (o', (s.classId, k)) in s.nft.byOwner ==> o == o')
            && (forall k: TokenId :: (s.classId, k) in s.nft.tokens <==> k < s.nft.NextId(s.classId))
            && (forall k | k in s.prices :: (s.classId, k) in s.nft.tokens)
  {
    LogAccountsForState(cfg, g, steps);
    var s := Run(cfg, g, steps);
    var b := Replay(s.log);
    forall o: Account, k: TokenId
      ensures KittyOf(s, o, k).Some? <==> (o, (s.classId, k)) in s.nft.byOwner
    {
      assert (s.classId, k) in s.nft.tokens <==> k < |b.kitties|;
    }
  }

  // ----- Money -----

  /** What other pallets gave to `who` during a run, less what they took. */
  ghost function ExternalNet(cfg: Config, g: State, steps: seq<Step>, who: Account): int {
    if steps == [] then 0
    else
      var init := steps[..|steps| - 1];
      ExternalNet(cfg, g, init, who) +
      match steps[|steps| - 1]
      case External(other, amount) => if other == who then amount - Free(Run(cfg, g, init), who) else 0
      case _ => 0
  }

  ghost function ExternalTotal(cfg: Config, g: State, steps: seq<Step>): int {
    if steps == [] then 0
    else
      var init := steps[..|steps| - 1];
      ExternalTotal(cfg, g, init) +
      match steps[|steps| - 1]
      case External(who, amount) => amount - Free(Run(cfg, g, init), who)
      case _ => 0
  }

  /** Apart from what other pallets do, each balance is told by the sales in the log. */
  lemma {:induction false} BalancesAreSales(cfg: Config, g: State, steps: seq<Step>, who: Account)
    requires IsGenesis(g)
    ensures var s := Run(cfg, g, steps);
            Free(s, who) == Free(g, who) + ExternalNet(cfg, g, steps, who) + NetSales(s.log, who)
  {
    if steps != [] {
      var init, step := steps[..|steps| - 1], steps[|steps| - 1];
      var s, s' := Run(cfg, g, init), Run(cfg, g, steps);
      BalancesAreSales(cfg, g, init, who);
      if !step.External? {
        LogAccountsForState(cfg, g, init);
        StepExplained(cfg, s, BookOf(s), step);
        if s'.log != s.log {
          assert s'.log[..|s'.log| - 1] == s.log;
        }
      }
    }
  }

  lemma StepConservesMoney(cfg: Config, s: State, step: Step)
    requires !step.External?
    ensures Currency.Total(Next(cfg, s, step).balances) == Currency.Total(s.balances)
  {
    if step.SignedExtrinsic? && step.call.Buy? {
      var owner, id := step.call.owner, step.call.id;
      if id in s.prices && Currency.Transfer(cfg.existentialDeposit, s.balances, step.who, owner, s.prices[id]).Ok? {
        Currency.TransferConserves(cfg.existentialDeposit, s.balances, step.who, owner, s.prices[id]);
      }
    }
  }

  /** The pallet neither makes nor destroys money. */
  lemma {:induction false} MoneyConserved(cfg: Config, g: State, steps: seq<Step>)
    ensures Currency.Total(Run(cfg, g, steps).balances)
         == Currency.Total(g.balances) + ExternalTotal(cfg, g, steps)
  {
    if steps != [] {
      var init, step := steps[..|steps| - 1], steps[|steps| - 1];
      var s := Run(cfg, g, init);
      MoneyConserved(cfg, g, init);
      if step.External? {
        Currency.TotalUpdate(s.balances, step.who, step.amount);
      } else {
        StepConservesMoney(cfg, s, step);
      }
    }
  }

  /** In particular a run of pallet calls alone leaves the sum of all balances constant. */
  lemma {:induction false} PalletCallsConserveMoney(cfg: Config, g: State, steps: seq<Step>)
    requires forall step | step in steps :: !step.External?
    ensures Currency.Total(Run(cfg, g, steps).balances) == Currency.Total(g.balances)
  {
    if steps != [] {
      PalletCallsConserveMoney(cfg, g, steps[..|steps| - 1]);
      StepConservesMoney(cfg, Run(cfg, g, steps[..|steps| - 1]), steps[|steps| - 1]);
    }
  }

  // ----- Supply -----

  predicate IsBirth(e: Event) {
    e.KittyCreated? || e.KittyBred?
  }

  function MintCount(log: seq<Event>): nat {
    if log == [] then 0
    else MintCount(log[..|log| - 1]) + if IsBirth(log[|log| - 1]) then 1 else 0
  }

  lemma {:induction false} KittiesAreMints(log: seq<Event>)
    ensures |Replay(log).kitties| == MintCount(log)
  {
    if log != [] {
      KittiesAreMints(log[..|log| - 1]);
    }
  }

  lemma {:induction false} ReplayKeepsKitties(log: seq<Event>, n: nat)
    requires n <= |log|
    ensures var earlier, later := Replay(log[..n]).kitties, Replay(log).kitties;
            |earlier| <= |later| && forall k | 0 <= k < |earlier| :: later[k].dna == earlier[k].dna
  {
    if n == |log| {
      assert log[..n] == log;
    } else {
      var init := log[..|log| - 1];
      assert init[..n] == log[..n];
      ReplayKeepsKitties(init, n);
    }
  }

  /** Every mint gets the next id. */
  lemma MintsAreConsecutive(cfg: Config, g: State, steps: seq<Step>, i: nat)
    requires IsGenesis(g)
    requires var log := Run(cfg, g, steps).log; i < |log| && IsBirth(log[i])
    ensures var log := Run(cfg, g, steps).log; log[i].id == MintCount(log[..i])
  {
    var log := Run(cfg, g, steps).log;
    LogAccountsForState(cfg, g, steps);
    LegalPrefix(cfg.existentialDeposit, log, i);
    KittiesAreMints(log[..i]);
  }

  lemma {:induction false} MintCountGrows(log: seq<Event>, i: nat, j: nat)
    requires i < j <= |log|
    ensures MintCount(log[..i]) + (if IsBirth(log[i]) then 1 else 0) <= MintCount(log[..j])
    decreases j
  {
    assert log[..j][..j - 1] == log[..j - 1];
    if i < j - 1 {
      MintCountGrows(log, i, j - 1);
    }
  }

  /** No id is ever used twice: ids grow strictly along the log. */
  lemma BirthIdsIncrease(cfg: Config, g: State, steps: seq<Step>, i: nat, j: nat)
    requires IsGenesis(g)
    requires var log := Run(cfg, g, steps).log; i < j < |log| && IsBirth(log[i]) && IsBirth(log[j])
    ensures Run(cfg, g, steps).log[i].id < Run(cfg, g, steps).log[j].id
  {
    MintsAreConsecutive(cfg, g, steps, i);
    MintsAreConsecutive(cfg, g, steps, j);
    MintCountGrows(Run(cfg, g, steps).log, i, j);
  }

  /** Kitties are never destroyed and their DNA never changes, however the run goes on. */
  lemma SupplyIsPermanent(cfg: Config, g: State, first: seq<Step>, second: seq<Step>)
    requires IsGenesis(g)
    ensures var s, s' := Run(cfg, g, first), Run(cfg, g, first + second);
            && s'.classId == s.classId == g.classId
            && s.nft.NextId(s.classId) == MintCount(s.log) <= MintCount(s'.log) == s'.nft.NextId(s'.classId)
            && forall k: TokenId | (s.classId, k) in s.nft.tokens ::
                 && (s.classId, k) in s'.nft.tokens
                 && s'.nft.tokens[(s.classId, k)].dna == s.nft.tokens[(s.classId, k)].dna
  {
    var s, s' := Run(cfg, g, first), Run(cfg, g, first + second);
    LogAccountsForState(cfg, g, first);
    LogAccountsForState(cfg, g, first + second);
    RunAppend(cfg, g, first, second);
    SuffixAccounted(cfg, s, second);
    assert s'.log[..|s.log|] == s.log;
    ReplayKeepsKitties(s'.log, |s.log|);
    TokensKeepDna(s, Replay(s.log), s', Replay(s'.log));
    KittiesAreMints(s.log);
    KittiesAreMints(s'.log);
  }

  lemma TokensKeepDna(s: State, b: Book, s': State, b': Book)
    requires Represents(s, b) && Represents(s', b') && s'.classId == s.classId
    requires |b.kitties| <= |b'.kitties| && forall k | 0 <= k < |b.kitties| :: b'.kitties[k].dna == b.kitties[k].dna
    ensures forall k: TokenId | (s.classId, k) in s.nft.tokens ::
              && (s.classId, k) in s'.nft.tokens
              && s'.nft.tokens[(s.classId, k)].dna == s.nft.tokens[(s.classId, k)].dna
  {
  }

  // ----- Failed calls -----

  /**
   A call that emits nothing changes nothing; it still succeeds exactly when it is the
   transfer of an own kitty to oneself.
   */
  lemma SilentCallsChangeNothing(cfg: Config, s: State, origin: Origin, call: Call, random: Bytes16)
    requires Accounted(cfg, s)
    ensures var o := Dispatch(cfg, s, origin, call, random);
            && (o.result.Err? ==> o.state == s)
            && (o.state.log == s.log <==> o.state == s)
            && (o.result.Ok? && o.state == s <==>
                  origin.Signed? && call.Transfer? && call.to == origin.who && Owns(BookOf(s), origin.who, call.id))
  {
  }

  /** Everything `buy` checks, in terms of the book and the two balances. */
  predicate CanBuy(cfg: Config, s: State, b: Book, buyer: Account, seller: Account, id: TokenId, maxPrice: Balance) {
    && buyer != seller
    && Owns(b, seller, id)
    && id in b.prices && b.prices[id] <= maxPrice
    && (b.prices[id] != 0 ==>
          && b.prices[id] + cfg.existentialDeposit <= Free(s, buyer)
          && cfg.existentialDeposit <= Free(s, seller) + b.prices[id] <= U128_MAX)
  }

  /** The whole effect of a sale, and that nothing else moved. */
  ghost predicate Sold(s: State, s': State, buyer: Account, seller: Account, id: TokenId)
    requires id in s.prices
  {
    && KittyOf(s, seller, id).Some?
    && KittyOf(s', buyer, id) == KittyOf(s, seller, id)
    && KittyOf(s', seller, id).None?
    && (forall other: TokenId, who: Account | other != id :: KittyOf(s', who, other) == KittyOf(s, who, other))
    && s'.prices == s.prices - {id}
    && Free(s', buyer) == Free(s, buyer) - s.prices[id]
    && Free(s', seller) == Free(s, seller) + s.prices[id]
    && (forall who | who != buyer && who != seller :: Free(s', who) == Free(s, who))
    && s'.log == s.log + [KittySold(seller, buyer, id, s.prices[id])]
    && s'.nonce == s.nonce && s'.classId == s.classId
  }

  lemma BuyOutcome(cfg: Config, s: State, b: Book, buyer: Account, seller: Account, id: TokenId, maxPrice: Balance)
    requires Represents(s, b)
    ensures var o := BuyCall(cfg, s, buyer, seller, id, maxPrice);
            && (o.result.Ok? <==> CanBuy(cfg, s, b, buyer, seller, id, maxPrice))
            && (o.result.Ok? ==> Sold(s, o.state, buyer, seller, id))
            && (o.result.Err? ==> o.state == s)
  {
  }

  /**
   `buy` is all or nothing.  It succeeds exactly when the seller named owns the listed kitty and the
   buyer can pay; then precisely the listed price moves, the kitty moves, and the listing is gone.
   */
  lemma BuyIsAllOrNothing(cfg: Config, g: State, steps: seq<Step>, buyer: Account, seller: Account, id: TokenId,
                          maxPrice: Balance, random: Bytes16)
    requires IsGenesis(g)
    ensures var s := Run(cfg, g, steps);
            var o := Dispatch(cfg, s, Signed(buyer), Buy(seller, id, maxPrice), random);
            && Next(cfg, s, SignedExtrinsic(buyer, Buy(seller, id, maxPrice), random)) == o.state
            && (o.result.Ok? <==> CanBuy(cfg, s, BookOf(s), buyer, seller, id, maxPrice))
            && (o.result.Ok? ==> Sold(s, o.state, buyer, seller, id) && Accounted(cfg, o.state))
            && (o.result.Err? ==> o.state == s)
  {
    LogAccountsForState(cfg, g, steps);
    var s := Run(cfg, g, steps);
    BuyOutcome(cfg, s, BookOf(s), buyer, seller, id, maxPrice);
    StepAccounted(cfg, s, SignedExtrinsic(buyer, Buy(seller, id, maxPrice), random));
  }
}
