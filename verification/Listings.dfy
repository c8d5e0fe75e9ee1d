/** Listings and sales over whole runs: who may list, what a sale consumes, how a kitty leaves its owner. */
module Listings {
  import opened Base
  import opened Kitties
  import opened Ledger
  import opened Runs

  /** Events that move kitty `id` or change its listing. */
  predicate Touches(e: Event, id: TokenId) {
    !e.KittyCreated? && !e.KittyBred? && e.id == id
  }

  ghost predicate Untouched(log: seq<Event>, id: TokenId, from: nat, to: nat)
    requires to <= |log|
  {
    forall j | from <= j < to :: !Touches(log[j], id)
  }

  /** At position `j` of the log `owner` listed `id` for `p`, and nothing has touched the kitty since. */
  ghost predicate ListedAt(log: seq<Event>, id: TokenId, j: nat, owner: Account, p: Balance) {
    && j < |log|
    && log[j] == KittyPriceUpdated(owner, id, Some(p))
    && Untouched(log, id, j + 1, |log|)
  }

  predicate Offers(b: Book, id: TokenId, p: Balance) {
    id in b.prices && b.prices[id] == p
  }

  lemma {:induction false} OfferWasListed(existentialDeposit: Balance, log: seq<Event>, id: TokenId, p: Balance)
    returns (j: nat, owner: Account)
    requires LegalLog(existentialDeposit, log) && Offers(Replay(log), id, p)
    ensures ListedAt(log, id, j, owner, p)
  {
    var last, init := log[|log| - 1], log[..|log| - 1];
    if Touches(last, id) {
      assert last.KittyPriceUpdated?;
      j, owner := |log| - 1, last.owner;
    } else {
      j, owner := OfferWasListed(existentialDeposit, init, id, p);
      assert forall i | 0 <= i < |init| :: log[i] == init[i];
    }
  }

  lemma UntouchedKeepsOffer(b: Book, e: Event, id: TokenId, owner: Account, p: Balance)
    requires Owns(b, owner, id) && Offers(b, id, p) && !Touches(e, id)
    ensures Owns(Apply(b, e), owner, id) && Offers(Apply(b, e), id, p)
  {
  }

  lemma {:induction false} OfferPersists(log: seq<Event>, id: TokenId, from: nat, owner: Account, p: Balance, n: nat)
    requires from <= n <= |log| && Untouched(log, id, from, n)
    requires Owns(Replay(log[..from]), owner, id) && Offers(Replay(log[..from]), id, p)
    ensures Owns(Replay(log[..n]), owner, id) && Offers(Replay(log[..n]), id, p)
  {
    if from < n {
      OfferPersists(log, id, from, owner, p, n - 1);
      ReplayNext(log, n - 1);
      UntouchedKeepsOffer(Replay(log[..n - 1]), log[n - 1], id, owner, p);
    }
  }

  /** From the listing on, at every moment, the lister owns the kitty and the offer stands. */
  lemma ListingStands(existentialDeposit: Balance, log: seq<Event>, id: TokenId, j: nat, owner: Account, p: Balance,
                      n: nat)
    requires LegalLog(existentialDeposit, log) && ListedAt(log, id, j, owner, p) && j < n <= |log|
    ensures Owns(Replay(log[..j]), owner, id)
    ensures Owns(Replay(log[..n]), owner, id) && Offers(Replay(log[..n]), id, p)
  {
    ListingStarts(existentialDeposit, log, id, j, owner, p);
    OfferPersists(log, id, j + 1, owner, p, n);
  }

  lemma ListingStarts(existentialDeposit: Balance, log: seq<Event>, id: TokenId, j: nat, owner: Account, p: Balance)
    requires LegalLog(existentialDeposit, log) && j < |log| && log[j] == KittyPriceUpdated(owner, id, Some(p))
    ensures Owns(Replay(log[..j]), owner, id)
    ensures Owns(Replay(log[..j + 1]), owner, id) && Offers(Replay(log[..j + 1]), id, p)
  {
    LegalPrefix(existentialDeposit, log, j);
    ReplayNext(log, j);
  }

  lemma ReplayNext(log: seq<Event>, n: nat)
    requires n < |log|
    ensures Replay(log[..n + 1]) == Apply(Replay(log[..n]), log[n])
  {
    assert log[..n + 1][..n] == log[..n];
  }

  /**
   A kitty is on offer at `p` exactly when its present owner made the latest price update on it, with
   `Some(p)`, and has owned it in every state of the run since then.
   */
  lemma ListingValidity(cfg: Config, g: State, steps: seq<Step>, id: TokenId, p: Balance)
    requires IsGenesis(g)
    ensures var s := Run(cfg, g, steps);
            id in s.prices && s.prices[id] == p <==> exists j, owner :: ListedAt(s.log, id, j, owner, p)
    ensures forall j: nat, owner, m: nat ::
              m <= |steps| && ListedAt(Run(cfg, g, steps).log, id, j, owner, p) && j <= |Run(cfg, g, steps[..m]).log|
              ==> KittyOf(Run(cfg, g, steps[..m]), owner, id).Some?
  {
    var s := Run(cfg, g, steps);
    LogAccountsForState(cfg, g, steps);
    if Offers(Replay(s.log), id, p) {
      var j, owner := OfferWasListed(cfg.existentialDeposit, s.log, id, p);
    }
    forall j, owner | ListedAt(s.log, id, j, owner, p)
      ensures id in s.prices && s.prices[id] == p
    {
      ListingStands(cfg.existentialDeposit, s.log, id, j, owner, p, |s.log|);
      assert s.log[..|s.log|] == s.log;
    }
    forall j: nat, owner, m: nat |
      m <= |steps| && ListedAt(s.log, id, j, owner, p) && j <= |Run(cfg, g, steps[..m]).log|
      ensures KittyOf(Run(cfg, g, steps[..m]), owner, id).Some?
    {
      OwnedSinceListing(cfg, g, steps, id, p, j, owner, m);
    }
  }

  lemma OwnedSinceListing(cfg: Config, g: State, steps: seq<Step>, id: TokenId, p: Balance, j: nat, owner: Account,
                          m: nat)
    requires IsGenesis(g) && m <= |steps|
    requires ListedAt(Run(cfg, g, steps).log, id, j, owner, p) && j <= |Run(cfg, g, steps[..m]).log|
    ensures KittyOf(Run(cfg, g, steps[..m]), owner, id).Some?
  {
    var s, earlier := Run(cfg, g, steps), Run(cfg, g, steps[..m]);
    LogAccountsForState(cfg, g, steps);
    LogGrows(cfg, g, steps, m);
    assert s.log[..|earlier.log|] == earlier.log;
    if |earlier.log| == j {
      ListingStands(cfg.existentialDeposit, s.log, id, j, owner, p, j + 1);
    } else {
      ListingStands(cfg.existentialDeposit, s.log, id, j, owner, p, |earlier.log|);
    }
    OwnerInTable(cfg, earlier, owner, id);
  }

  lemma LogGrows(cfg: Config, g: State, steps: seq<Step>, m: nat)
    requires IsGenesis(g) && m <= |steps|
    ensures Accounted(cfg, Run(cfg, g, steps[..m]))
    ensures Run(cfg, g, steps[..m]).log <= Run(cfg, g, steps).log
  {
    assert steps == steps[..m] + steps[m..];
    RunAppend(cfg, g, steps[..m], steps[m..]);
    LogAccountsForState(cfg, g, steps[..m]);
    SuffixAccounted(cfg, Run(cfg, g, steps[..m]), steps[m..]);
  }

  lemma OwnerInTable(cfg: Config, s: State, owner: Account, id: TokenId)
    requires Accounted(cfg, s)
    ensures Owns(BookOf(s), owner, id) <==> KittyOf(s, owner, id).Some?
  {
  }

  // ----- Sales -----

  /** `j` is the listing that the sale at `i` consumes. */
  ghost predicate Consumes(log: seq<Event>, i: nat, j: nat)
    requires i < |log| && log[i].KittySold?
  {
    && j < i
    && log[j] == KittyPriceUpdated(log[i].from, log[i].id, Some(log[i].paid))
    && Untouched(log, log[i].id, j + 1, i)
  }

  lemma SaleConsumes(existentialDeposit: Balance, log: seq<Event>, i: nat) returns (j: nat)
    requires LegalLog(existentialDeposit, log) && i < |log| && log[i].KittySold?
    ensures Consumes(log, i, j)
  {
    var before := log[..i];
    LegalPrefix(existentialDeposit, log, i);
    var owner;
    j, owner := OfferWasListed(existentialDeposit, before, log[i].id, log[i].paid);
    ListingStands(existentialDeposit, before, log[i].id, j, owner, log[i].paid, i);
    assert before[..i] == before;
  }

  lemma ConsumesOnce(log: seq<Event>, i: nat, i': nat, j: nat)
    requires i < |log| && log[i].KittySold? && i' < |log| && log[i'].KittySold?
    requires Consumes(log, i, j) && Consumes(log, i', j)
    ensures i == i'
  {
  }

  /** The sales of a run, each with its own earlier listing by the same seller at the exact price paid. */
  lemma SalesConsumeListings(cfg: Config, g: State, steps: seq<Step>) returns (listing: map<nat, nat>)
    requires IsGenesis(g)
    ensures var log := Run(cfg, g, steps).log;
            && (forall i: nat :: i in listing <==> i < |log| && log[i].KittySold?)
            && (forall i | i in listing :: Consumes(log, i, listing[i]))
            && (forall i, i' | i in listing && i' in listing && listing[i] == listing[i'] :: i == i')
  {
    var log := Run(cfg, g, steps).log;
    LogAccountsForState(cfg, g, steps);
    listing := ConsumedListings(cfg.existentialDeposit, log, |log|);
    forall i, i' | i in listing && i' in listing && listing[i] == listing[i']
      ensures i == i'
    {
      ConsumesOnce(log, i, i', listing[i]);
    }
  }

  lemma ConsumedListings(existentialDeposit: Balance, log: seq<Event>, n: nat) returns (listing: map<nat, nat>)
    requires LegalLog(existentialDeposit, log) && n <= |log|
    ensures forall i: nat :: i in listing <==> i < n && log[i].KittySold?
    ensures forall i | i in listing :: Consumes(log, i, listing[i])
  {
    if n == 0 {
      listing := map[];
    } else {
      listing := ConsumedListings(existentialDeposit, log, n - 1);
      if log[n - 1].KittySold? {
        var j := SaleConsumes(existentialDeposit, log, n - 1);
        listing := listing[n - 1 := j];
      }
    }
  }

  /** Between two sales of one kitty its owner of the time has listed it again. */
  lemma RelistedBetweenSales(cfg: Config, g: State, steps: seq<Step>, i: nat, i': nat) returns (j: nat)
    requires IsGenesis(g)
    requires var log := Run(cfg, g, steps).log;
             i < i' < |log| && log[i].KittySold? && log[i'].KittySold? && log[i].id == log[i'].id
    ensures var log := Run(cfg, g, steps).log;
            i < j < i' && log[j] == KittyPriceUpdated(log[i'].from, log[i'].id, Some(log[i'].paid))
  {
    LogAccountsForState(cfg, g, steps);
    j := RelistedInLog(cfg.existentialDeposit, Run(cfg, g, steps).log, i, i');
  }

  lemma RelistedInLog(existentialDeposit: Balance, log: seq<Event>, i: nat, i': nat) returns (j: nat)
    requires LegalLog(existentialDeposit, log)
    requires i < i' < |log| && log[i].KittySold? && log[i'].KittySold? && log[i].id == log[i'].id
    ensures i < j < i' && log[j] == KittyPriceUpdated(log[i'].from, log[i'].id, Some(log[i'].paid))
  {
    j := SaleConsumes(existentialDeposit, log, i');
    assert Touches(log[i], log[i'].id);
  }

  // ----- Leaving an owner -----

  /** `step` is the sale of `id` by `owner` at the standing price `p` the owner last set. */
  ghost predicate SoldAtOwnPrice(s: State, step: Step, owner: Account, id: TokenId, p: Balance, j: nat) {
    && step.SignedExtrinsic? && step.call.Buy?
    && step.call.owner == owner && step.call.id == id && p <= step.call.maxPrice
    && ListedAt(s.log, id, j, owner, p)
  }

  /**
   A kitty leaves account `owner` only by a transfer that `owner` signed, or by a sale at the price
   `owner` last set; and the owner is paid that price.
   */
  lemma OwnersActNeeded(cfg: Config, g: State, steps: seq<Step>, step: Step, owner: Account, id: TokenId)
    requires IsGenesis(g)
    requires KittyOf(Run(cfg, g, steps), owner, id).Some?
    requires KittyOf(Next(cfg, Run(cfg, g, steps), step), owner, id).None?
    ensures var s := Run(cfg, g, steps);
            var s' := Next(cfg, s, step);
            || (&& step.SignedExtrinsic? && step.who == owner
                && step.call.Transfer? && step.call.id == id && step.call.to != owner
                && KittyOf(s', step.call.to, id) == KittyOf(s, owner, id))
            || (exists p, j :: SoldAtOwnPrice(s, step, owner, id, p, j)
                               && KittyOf(s', step.who, id) == KittyOf(s, owner, id)
                               && Free(s', owner) == Free(s, owner) + p)
  {
    var s := Run(cfg, g, steps);
    LogAccountsForState(cfg, g, steps);
    KittyStays(cfg, s, step, owner, id);
    if step.call.Buy? {
      BuyOutcome(cfg, s, BookOf(s), step.who, step.call.owner, step.call.id, step.call.maxPrice);
      OwnerInTable(cfg, s, owner, id);
      var j, lister := OfferWasListed(cfg.existentialDeposit, s.log, id, s.prices[id]);
      ListingStands(cfg.existentialDeposit, s.log, id, j, lister, s.prices[id], |s.log|);
      assert s.log[..|s.log|] == s.log;
      assert SoldAtOwnPrice(s, step, owner, id, s.prices[id], j);
    }
  }

  /** No other step takes a kitty from its owner. */
  lemma KittyStays(cfg: Config, s: State, step: Step, owner: Account, id: TokenId)
    requires Accounted(cfg, s)
    requires KittyOf(s, owner, id).Some? && KittyOf(Next(cfg, s, step), owner, id).None?
    ensures step.SignedExtrinsic? && (step.call.Transfer? || step.call.Buy?) && step.call.id == id
    ensures step.call.Transfer? ==>
              && step.who == owner && step.call.to != owner
              && KittyOf(Next(cfg, s, step), step.call.to, id) == KittyOf(s, owner, id)
    ensures step.call.Buy? ==>
              step.call.owner == owner && BuyCall(cfg, s, step.who, owner, id, step.call.maxPrice).result.Ok?
  {
  }
}
