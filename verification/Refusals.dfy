/** Which calls are refused, and with which error, told from the book of kitties alone. */
module Refusals {
  import opened Base
  import opened Genetics
  import opened Kitties
  import opened Ledger
  import opened Runs
  import Currency

  function BreedRefusal(b: Book, id1: TokenId, id2: TokenId): Option<Error>
    requires id1 < |b.kitties| && id2 < |b.kitties|
  {
    if GenderOf(b.kitties[id1].dna) == GenderOf(b.kitties[id2].dna) then Some(SameGender)
    else if |b.kitties| == U32_MAX then Some(NoAvailableTokenId)
    else None
  }

  function PaymentRefusal(cfg: Config, balances: Currency.Balances, buyer: Account, seller: Account, p: Balance)
    : Option<Error>
  {
    var source, target := Currency.Free(balances, buyer), Currency.Free(balances, seller);
    if p == 0 then None
    else if source < p then Some(InsufficientBalance)
    else if target + p > U128_MAX then Some(Overflow)
    else if target + p < cfg.existentialDeposit then Some(ExistentialDeposit)
    else if source < p + cfg.existentialDeposit then Some(KeepAlive)
    else None
  }

  /** The error a call meets, if any. */
  function Refusal(cfg: Config, b: Book, balances: Currency.Balances, origin: Origin, call: Call): Option<Error> {
    match call
    case AutoBreed(id1, id2, _, _) =>
      if !origin.NoOrigin? then Some(BadOrigin)
      else if id1 >= |b.kitties| || id2 >= |b.kitties| then Some(InvalidKittyId)
      else BreedRefusal(b, id1, id2)
    case _ =>
      if !origin.Signed? then Some(BadOrigin) else SignedRefusal(cfg, b, balances, origin.who, call)
  }

  function SignedRefusal(cfg: Config, b: Book, balances: Currency.Balances, who: Account, call: Call): Option<Error>
    requires !call.AutoBreed?
  {
    match call
    case Create => if |b.kitties| == U32_MAX then Some(NoAvailableTokenId) else None
    case Breed(id1, id2) =>
      if !Owns(b, who, id1) || !Owns(b, who, id2) then Some(InvalidKittyId) else BreedRefusal(b, id1, id2)
    case Transfer(_, id) =>
      if id >= |b.kitties| then Some(TokenNotFound) else if !Owns(b, who, id) then Some(NoPermission) else None
    case SetPrice(id, _) => if !Owns(b, who, id) then Some(NotOwner) else None
    case Buy(seller, id, maxPrice) =>
      if who == seller then Some(BuyFromSelf)
      else if id !in b.prices then Some(NotForSale)
      else if maxPrice < b.prices[id] then Some(PriceTooLow)
      else if !Owns(b, seller, id) then Some(NoPermission)
      else PaymentRefusal(cfg, balances, who, seller, b.prices[id])
  }

  function ResultOf(refusal: Option<Error>): Result<()> {
    match refusal case Some(e) => Err(e) case None => Ok(())
  }

  lemma NeverMissing(cfg: Config, b: Book, balances: Currency.Balances, origin: Origin, call: Call)
    ensures Refusal(cfg, b, balances, origin, call) != Some(ClassNotFound)
    ensures call.Buy? ==> Refusal(cfg, b, balances, origin, call) != Some(TokenNotFound)
  {
  }

  lemma DispatchRefused(cfg: Config, s: State, b: Book, origin: Origin, call: Call, random: Bytes16)
    requires Represents(s, b)
    ensures Dispatch(cfg, s, origin, call, random).result == ResultOf(Refusal(cfg, b, s.balances, origin, call))
  {
  }

  /**
   In every reachable state each call succeeds, or fails with the error told from the log.  A missing class
   is never the reason, and neither is a missing token when buying.
   */
  lemma RefusedExactlyWhen(cfg: Config, g: State, steps: seq<Step>, origin: Origin, call: Call, random: Bytes16)
    requires IsGenesis(g)
    ensures var s := Run(cfg, g, steps);
            Dispatch(cfg, s, origin, call, random).result == ResultOf(Refusal(cfg, BookOf(s), s.balances, origin, call))
    ensures var result := Dispatch(cfg, Run(cfg, g, steps), origin, call, random).result;
            result != Err(ClassNotFound) && (call.Buy? ==> result != Err(TokenNotFound))
  {
    LogAccountsForState(cfg, g, steps);
    var s := Run(cfg, g, steps);
    DispatchRefused(cfg, s, BookOf(s), origin, call, random);
    NeverMissing(cfg, BookOf(s), s.balances, origin, call);
  }
}
