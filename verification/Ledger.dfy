/**
 The event log as the account of the chain.  A book is the state the log tells: one entry per kitty,
 in order of birth, and the open listings.  Every run of the pallet refines the replay of its log.
 */
module Ledger {
  import opened Base
  import opened Genetics
  import opened Kitties
  import Nft
  import Currency

  datatype Book = Book(kitties: seq<Nft.Token>, prices: map<TokenId, Balance>)

  /** `dna` is bred from two kitties of different gender; the owner of the first one gets the child. */
  ghost predicate Bears(b: Book, owner: Account, dna: Dna, id1: TokenId, id2: TokenId, selector: Bytes16) {
    && id1 < |b.kitties| && id2 < |b.kitties|
    && b.kitties[id1].owner == owner
    && GenderOf(b.kitties[id1].dna) != GenderOf(b.kitties[id2].dna)
    && dna == Combine(b.kitties[id1].dna, b.kitties[id2].dna, selector)
  }

  predicate Owns(b: Book, who: Account, id: TokenId) {
    id < |b.kitties| && b.kitties[id].owner == who
  }

  /** The events a book allows next. */
  ghost predicate Legal(existentialDeposit: Balance, b: Book, e: Event) {
    match e
    case KittyCreated(_, id, _) => id == |b.kitties| < U32_MAX
    case KittyBred(owner, id, dna) =>
      id == |b.kitties| < U32_MAX && exists id1: TokenId, id2: TokenId, selector: Bytes16 ::
        Bears(b, owner, dna, id1, id2, selector)
    case KittyTransferred(from, to, id) => from != to && Owns(b, from, id)
    case KittyPriceUpdated(owner, id, _) => Owns(b, owner, id)
    case KittySold(from, to, id, paid) =>
      && from != to && Owns(b, from, id)
      && id in b.prices && b.prices[id] == paid
      && (paid == 0 || paid + existentialDeposit <= U128_MAX)
  }

  function Apply(b: Book, e: Event): Book {
    match e
    case KittyCreated(owner, _, dna) => b.(kitties := b.kitties + [Nft.Token(owner, dna)])
    case KittyBred(owner, _, dna) => b.(kitties := b.kitties + [Nft.Token(owner, dna)])
    case KittyTransferred(_, to, id) => Handover(b, id, to)
    case KittyPriceUpdated(_, id, Some(p)) => b.(prices := b.prices[id := p])
    case KittyPriceUpdated(_, id, None) => b.(prices := b.prices - {id})
    case KittySold(_, to, id, _) => Handover(b, id, to)
  }

  /** The kitty changes hands and its listing is gone. */
  function Handover(b: Book, id: TokenId, to: Account): Book {
    if id < |b.kitties|
    then Book(b.kitties[id := b.kitties[id].(owner := to)], b.prices - {id})
    else b
  }

  function Replay(log: seq<Event>): Book {
    if log == [] then Book([], map[])
    else Apply(Replay(log[..|log| - 1]), log[|log| - 1])
  }

  ghost predicate LegalLog(existentialDeposit: Balance, log: seq<Event>) {
    log != [] ==>
      && LegalLog(existentialDeposit, log[..|log| - 1])
      && Legal(existentialDeposit, Replay(log[..|log| - 1]), log[|log| - 1])
  }

  lemma {:induction false} LegalPrefix(existentialDeposit: Balance, log: seq<Event>, n: nat)
    requires n <= |log| && LegalLog(existentialDeposit, log)
    ensures LegalLog(existentialDeposit, log[..n])
    ensures n < |log| ==> Legal(existentialDeposit, Replay(log[..n]), log[n])
  {
    if n == |log| {
      assert log[..n] == log;
    } else {
      var init := log[..|log| - 1];
      if n < |init| {
        LegalPrefix(existentialDeposit, init, n);
        assert init[..n] == log[..n];
      }
    }
  }

  /** Money `who` gains in an event. */
  function Net(e: Event, who: Account): int {
    match e
    case KittySold(from, to, _, paid) =>
      (if who == from then paid else 0) - (if who == to then paid else 0)
    case _ => 0
  }

  function NetSales(log: seq<Event>, who: Account): int {
    if log == [] then 0 else NetSales(log[..|log| - 1], who) + Net(log[|log| - 1], who)
  }

  // ----- Storage tells the same as the book -----

  /** The kitties of this pallet's class in one NFT storage, both tables and the counter. */
  ghost predicate Tables(n: Nft.Storage, c: ClassId, kitties: seq<Nft.Token>) {
    && c in n.classes
    && n.NextId(c) == |kitties|
    && (forall k: TokenId :: (c, k) in n.tokens <==> k < |kitties|)
    && (forall k: TokenId | k < |kitties| :: n.tokens[(c, k)] == kitties[k])
    && (forall o: Account, k: TokenId :: (o, (c, k)) in n.byOwner <==> k < |kitties| && kitties[k].owner == o)
  }

  ghost predicate Represents(s: State, b: Book) {
    && Tables(s.nft, s.classId, b.kitties)
    && s.prices == b.prices
    && (forall k | k in b.prices :: k < |b.kitties|)
  }

  /** Nothing outside the class `c` differs. */
  ghost predicate OnlyClass(c: ClassId, n: Nft.Storage, n': Nft.Storage) {
    && n'.classes == n.classes && n'.nextClass == n.nextClass
    && (forall d | d != c :: n'.NextId(d) == n.NextId(d))
    && (forall key: TokenKey | key.0 != c :: key in n'.tokens <==> key in n.tokens)
    && (forall key: TokenKey | key.0 != c && key in n.tokens :: n'.tokens[key] == n.tokens[key])
    && (forall o: Account, key: TokenKey | key.0 != c :: (o, key) in n'.byOwner <==> (o, key) in n.byOwner)
  }

  /** `s'` follows from `s` by no event and no change, or by one legal event and its effect. */
  ghost predicate Explained(cfg: Config, s: State, b: Book, s': State) {
    && s'.classId == s.classId
    && OnlyClass(s.classId, s.nft, s'.nft)
    && if s'.log == s.log then
         s'.nft == s.nft && s'.prices == s.prices && s'.balances == s.balances
       else
         && |s'.log| == |s.log| + 1 && s'.log[..|s.log|] == s.log
         && var e := s'.log[|s.log|];
         && Legal(cfg.existentialDeposit, b, e)
         && Represents(s', Apply(b, e))
         && (forall who :: Free(s', who) == Free(s, who) + Net(e, who))
  }

  function Free(s: State, who: Account): Balance {
    Currency.Free(s.balances, who)
  }

  lemma MintAppends(n: Nft.Storage, owner: Account, c: ClassId, dna: Dna, kitties: seq<Nft.Token>)
    requires Tables(n, c, kitties)
    ensures Nft.Mint(n, owner, c, dna).Err? <==> |kitties| == U32_MAX
    ensures Nft.Mint(n, owner, c, dna).Ok? ==>
              var (n', id) := Nft.Mint(n, owner, c, dna).value;
              id == |kitties| && Tables(n', c, kitties + [Nft.Token(owner, dna)]) && OnlyClass(c, n, n')
  {
  }

  lemma TransferMoves(n: Nft.Storage, from: Account, to: Account, c: ClassId, id: TokenId, kitties: seq<Nft.Token>)
    requires Tables(n, c, kitties) && from != to
    ensures Nft.Transfer(n, from, to, (c, id)).Ok? <==> id < |kitties| && kitties[id].owner == from
    ensures Nft.Transfer(n, from, to, (c, id)).Ok? ==>
              var n' := Nft.Transfer(n, from, to, (c, id)).value;
              Tables(n', c, kitties[id := kitties[id].(owner := to)]) && OnlyClass(c, n, n')
  {
  }

  lemma CreateExplained(cfg: Config, s: State, b: Book, sender: Account, random: Dna)
    requires Represents(s, b)
    ensures Explained(cfg, s, b, CreateCall(s, sender, random).state)
  {
    MintAppends(s.nft, sender, s.classId, random, b.kitties);
  }

  lemma DoBreedExplained(cfg: Config, s: State, b: Book, id1: TokenId, id2: TokenId, selector: Bytes16)
    requires Represents(s, b) && id1 < |b.kitties| && id2 < |b.kitties|
    ensures Explained(cfg, s, b,
              DoBreed(s, b.kitties[id1].owner, b.kitties[id1].dna, b.kitties[id2].dna, selector).state)
  {
    var k1, k2 := b.kitties[id1], b.kitties[id2];
    var child: Dna := Combine(k1.dna, k2.dna, selector);
    MintAppends(s.nft, k1.owner, s.classId, child, b.kitties);
    if GenderOf(k1.dna) != GenderOf(k2.dna) {
      assert Bears(b, k1.owner, child, id1, id2, selector);
    }
  }

  lemma TransferExplained(cfg: Config, s: State, b: Book, sender: Account, to: Account, id: TokenId)
    requires Represents(s, b)
    ensures Explained(cfg, s, b, TransferCall(s, sender, to, id).state)
  {
    if sender != to {
      TransferMoves(s.nft, sender, to, s.classId, id, b.kitties);
    }
  }

  lemma SetPriceExplained(cfg: Config, s: State, b: Book, sender: Account, id: TokenId, newPrice: Option<Balance>)
    requires Represents(s, b)
    ensures Explained(cfg, s, b, SetPriceCall(s, sender, id, newPrice).state)
  {
  }

  lemma BuyExplained(cfg: Config, s: State, b: Book, sender: Account, owner: Account, id: TokenId, maxPrice: Balance)
    requires Represents(s, b)
    ensures Explained(cfg, s, b, BuyCall(cfg, s, sender, owner, id, maxPrice).state)
  {
    if sender != owner {
      TransferMoves(s.nft, owner, sender, s.classId, id, b.kitties);
    }
  }

  lemma DispatchExplained(cfg: Config, s: State, b: Book, origin: Origin, call: Call, random: Bytes16)
    requires Represents(s, b)
    ensures Explained(cfg, s, b, Dispatch(cfg, s, origin, call, random).state)
  {
    match (origin, call)
    case (Signed(who), Create) => CreateExplained(cfg, s, b, who, random);
    case (Signed(who), Breed(id1, id2)) =>
      if KittyOf(s, who, id1).Some? && KittyOf(s, who, id2).Some? {
        DoBreedExplained(cfg, s, b, id1, id2, random);
      }
    case (Signed(who), Transfer(to, id)) => TransferExplained(cfg, s, b, who, to, id);
    case (Signed(who), SetPrice(id, price)) => SetPriceExplained(cfg, s, b, who, id, price);
    case (Signed(who), Buy(owner, id, maxPrice)) => BuyExplained(cfg, s, b, who, owner, id, maxPrice);
    case (NoOrigin, AutoBreed(id1, id2, _, _)) =>
      if id1 < |b.kitties| && id2 < |b.kitties| {
        DoBreedExplained(cfg, s, b, id1, id2, random);
      }
    case _ =>
  }

  /** Every step but an external one is explained by its events. */
  lemma StepExplained(cfg: Config, s: State, b: Book, step: Step)
    requires Represents(s, b) && !step.External?
    ensures Explained(cfg, s, b, Next(cfg, s, step))
  {
    match step
    case SignedExtrinsic(who, call, random) => DispatchExplained(cfg, s, b, Signed(who), call, random);
    case RootExtrinsic(call, random) => DispatchExplained(cfg, s, b, Root, call, random);
    case UnsignedExtrinsic(call, random) =>
      var (validated, _) := ValidateUnsigned(cfg, s, call);
      DispatchExplained(cfg, validated, b, NoOrigin, call, random);
  }
}
