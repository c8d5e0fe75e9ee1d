/** Machine integers, identifiers and the two wrapper types the whole model shares. */
module Base {
  const U32_MAX: int := 0xFFFF_FFFF
  const U128_MAX: int := 0xFFFF_FFFF_FFFF_FFFF_FFFF_FFFF_FFFF_FFFF

  type U32 = x: int | 0 <= x <= U32_MAX
  type U128 = x: int | 0 <= x <= U128_MAX

  /** Accounts are only ever compared for equality. */
  type Account = nat
  type Balance = U128
  type ClassId = U32
  type TokenId = U32
  type TokenKey = (ClassId, TokenId)

  /** `[u8; 16]`: a genome, a selector or a blake2 hash. */
  type Bytes16 = s: seq<bv8> | |s| == 16 witness seq(16, _ => 0)
  type Dna = Bytes16

  datatype Option<+T> = None | Some(value: T)

  datatype Error =
    | BadOrigin
    // kitties pallet
    | InvalidKittyId | SameGender | NotOwner | NotForSale | PriceTooLow | BuyFromSelf
    // NFT library
    | TokenNotFound | NoPermission | NoAvailableTokenId | ClassNotFound
    // currency
    | InsufficientBalance | Overflow | ExistentialDeposit | KeepAlive

  datatype Result<+T> = Ok(value: T) | Err(error: Error)
}
