/**
 The NFT library behind the pallet, as far as the pallet uses it.  Its code is not part of the
 repository: these functions are assumptions about it.
 */
module Nft {
  import opened Base

  datatype Token = Token(owner: Account, dna: Dna)

  /** Class table, per-class token counters, token table and owner index (`TokensByOwner`). */
  datatype Storage = Storage(
    nextClass: ClassId,
    classes: set<ClassId>,
    nextToken: map<ClassId, TokenId>,
    tokens: map<TokenKey, Token>,
    byOwner: set<(Account, TokenKey)>)
  {
    function NextId(c: ClassId): TokenId {
      if c in nextToken then nextToken[c] else 0
    }
  }

  /** No class has been used before it is created. */
  ghost predicate WellFormed(n: Storage) {
    && (forall c | c in n.classes :: c < n.nextClass)
    && (forall c | c in n.nextToken :: c < n.nextClass)
    && (forall key | key in n.tokens :: key.0 < n.nextClass)
    && (forall entry | entry in n.byOwner :: entry.1.0 < n.nextClass)
  }

  function CreateClass(n: Storage): Option<(Storage, ClassId)> {
    if n.nextClass == U32_MAX then None
    else Some((n.(nextClass := n.nextClass + 1, classes := n.classes + {n.nextClass}), n.nextClass))
  }

  /** Ids are consecutive; the last `u32` is never handed out. */
  function Mint(n: Storage, owner: Account, c: ClassId, dna: Dna): Result<(Storage, TokenId)> {
    var id := n.NextId(c);
    if id == U32_MAX then Err(NoAvailableTokenId)
    else if c !in n.classes then Err(ClassNotFound)
    else
      Ok((n.(nextToken := n.nextToken[c := id + 1],
             tokens := n.tokens[(c, id) := Token(owner, dna)],
             byOwner := n.byOwner + {(owner, (c, id))}), id))
  }

  function Transfer(n: Storage, from: Account, to: Account, key: TokenKey): Result<Storage> {
    if key !in n.tokens then Err(TokenNotFound)
    else if n.tokens[key].owner != from then Err(NoPermission)
    else if from == to then Ok(n)
    else
      Ok(n.(tokens := n.tokens[key := n.tokens[key].(owner := to)],
            byOwner := n.byOwner - {(from, key)} + {(to, key)}))
  }
}

/** Free balances and the keep-alive transfer.  Also an assumption about a library. */
module Currency {
  import opened Base

  type Balances = map<Account, Balance>

  function Free(b: Balances, who: Account): Balance {
    if who in b then b[who] else 0
  }

  function Transfer(existentialDeposit: Balance, b: Balances, from: Account, to: Account, amount: Balance)
    : Result<Balances>
  {
    if amount == 0 || from == to then Ok(b)
    else if Free(b, from) < amount then Err(InsufficientBalance)
    else if Free(b, to) + amount > U128_MAX then Err(Overflow)
    else if Free(b, to) + amount < existentialDeposit then Err(ExistentialDeposit)
    else if Free(b, from) - amount < existentialDeposit then Err(KeepAlive)
    else Ok(b[from := Free(b, from) - amount][to := Free(b, to) + amount])
  }

  /** Sum of all balances. */
  ghost function Total(b: Balances): nat
    decreases |b|
  {
    if b == map[] then 0 else var who := Pick(b); b[who] + Total(b - {who})
  }

  ghost function Pick(b: Balances): (who: Account)
    requires b != map[]
    ensures who in b
  {
    assert b.Keys != {};
    var who :| who in b;
    who
  }

  lemma {:induction false} TotalWithout(b: Balances, who: Account)
    requires who in b
    ensures Total(b) == b[who] + Total(b - {who})
    decreases |b|
  {
    var first := Pick(b);
    if first != who {
      TotalWithout(b - {first}, who);
      TotalWithout(b - {who}, first);
      assert b - {first} - {who} == b - {who} - {first};
    }
  }

  /** Overwriting one balance changes the sum by exactly the difference. */
  lemma TotalUpdate(b: Balances, who: Account, amount: Balance)
    ensures Total(b[who := amount]) == Total(b) - Free(b, who) + amount
  {
    TotalWithout(b[who := amount], who);
    if who in b {
      TotalWithout(b, who);
      assert b[who := amount] - {who} == b - {who};
    } else {
      assert b[who := amount] - {who} == b;
    }
  }

  /** A transfer moves money and neither makes nor destroys any. */
  lemma TransferConserves(existentialDeposit: Balance, b: Balances, from: Account, to: Account, amount: Balance)
    requires Transfer(existentialDeposit, b, from, to, amount).Ok?
    ensures Total(Transfer(existentialDeposit, b, from, to, amount).value) == Total(b)
  {
    if amount != 0 && from != to {
      TotalUpdate(b, from, Free(b, from) - amount);
      TotalUpdate(b[from := Free(b, from) - amount], to, Free(b, to) + amount);
    }
  }
}
