# Kitties: a verified model of the kitties pallet

The kitties pallet is a marketplace of collectible kitties on a blockchain. Accounts create kitties,
breed two of different gender, give them away, list them at a price and buy them; an off-chain worker
mines proof-of-work solutions that let anybody breed two kitties by an unsigned transaction. This
project models the pallet in Dafny and proves what holds over every finite run of the chain from genesis.

Check it with `dafny verify dfyconfig.toml`.

## How it is built

- `Base`, `Bytes`, `Genetics`: integers of the source's width, the 16-byte genome as `bv8`s, genders,
  crossover and its loop.
- `Difficulty`: hashes as little-endian `u128`, the acceptance bound, the packing of candidate solutions.
- `Nft`, `Currency` (`Libraries.dfy`): the two libraries the pallet calls, as assumptions (below).
- `Kitties`: the storage as one value, each call as a function from storage and arguments to storage and
  result, validation of unsigned transactions, genesis, and runs (`Next`, `Run`).
- `Pallet`: the pallet as it is written, a class whose methods update the storage in place. Every method
  is proved to do what the function of module `Kitties` says. `buy` writes and then rolls back.
- `Ledger`, `Runs`: a *book* is what the event log tells, one entry per kitty in order of birth and the
  open listings. A run refines the replay of its log: each step either changes nothing of it or emits
  one event that the book allows (`Legal`) and has exactly that event's effect (`Apply`). The book is a
  plain sequence; the storage keeps a token table, an owner index, a counter and a price map.
- `Laws`: each call, the validator and the worker as a caller sees them, in every reachable state.
- `Refusals`, `Listings`, `Lineage`, `Nonces`, `Mining`, `Completeness`: the results on whole runs.

Steps of a run are signed extrinsics, calls with root origin, unsigned extrinsics, and `External`: any other pallet
setting one free balance. So the theorems hold under interference with balances.

What the functions without a contract of their own mean is stated by lemmas about them: `Combine` by
`CombineIffInherits`, `Dispatch`, `Next` and the call functions by the laws of module `Laws`, `BuyIsAllOrNothing` and
`RefusedExactlyWhen`, `ValidSolution` by `SolutionMeans`, `Mines` by `WorkerLaw`, `FromLe` by `FromLeConcat`, `Candidate` by `CandidateUnpacks`.

### Where the code does less than its comment says

The nonce is documented as preventing replay (`pallets/kitties/src/lib.rs:86`), but it is advanced with
`saturating_add`. `ReplayableIffSaturated` gives the exact condition, for every hash function: a nonce is
accepted twice in some run if and only if it is 2^32-1 and every nonce is passable, that is, some pair of ids has a
valid solution for it. No other nonce is accepted twice in any run.

### Assumptions

- NFT library: minting hands out consecutive ids per class, never the last `u32`, and fails without
  change; transfer fails for a missing token or a wrong owner and does nothing to oneself; a class is unused
  before it is created (`Nft.WellFormed`). The runtime exposes no calls of that library.
- Currency: a keep-alive transfer of a free balance, refused for too little money, overflow, a target left
  below the existential deposit, or a source left below it. Zero amounts succeed.
- Framework: an included unsigned extrinsic is validated and dispatched in one step, and the nonce write
  of the validation stays even if the dispatch fails.
- The hash function, the random value of each call and the random stream of the worker are arbitrary. One
  clause alone, the converse in `EmittableIffLegal`, is stated for hash functions that leave every pair a solution
  (`Solvable`, which `ZeroHashIsSolvable` shows can be met); `EmittableIffTellable` and `SignedEmittableIffLegal` say
  for every hash function what can be emitted.
- The difficulty is a `u32` of at least 1; with 0 every validation would divide by zero.

## Model

The main results come first and are marked; the other rows carry them.

| member | source | states |
|---|---|---|
| Runs.LogAccountsForState | pallets/kitties/src/lib.rs:149-225 | main: replaying the log of any run gives exactly token table, owner index, counter and price map; every event was legal; other classes are untouched |
| Completeness.EmittableIffTellable | pallets/kitties/src/lib.rs:144-263 | main: for every hash function, a sequence of events is the log of some run with n accepted validations if and only if it can be told so: each event is one a signed call may emit, or one an unsigned extrinsic with the current nonce may, and the remaining validations can be wasted |
| Completeness.SignedEmittableIffLegal | pallets/kitties/src/lib.rs:144-236 | main: for every hash function, a sequence of events is the log of some run without unsigned extrinsics if and only if every event is legal in its place and every bred kitty has two parents of its owner's |
| Completeness.EmittableIffLegal | pallets/kitties/src/lib.rs:144-263 | main: every log is legal; where the hash leaves every pair a solution, every legal sequence of events is the log of some run |
| Mining.OldWorkStillGood | pallets/kitties/src/lib.rs:228-262 | main: what the worker submits is accepted in a later state if and only if the nonce is unchanged; it then breeds the kitties and DNA the worker saw, for the present owner, unless ids are exhausted |
| Lineage.EveryBitInherited | pallets/kitties/src/lib.rs:290-314 | main: for every kitty and bit position there is a line of descent through the run's breedings, all carrying that bit, to a kitty made by `create` with it |
| Lineage.OneGenderNeverBreeds | pallets/kitties/src/lib.rs:290-314 | main: while all created kitties have one gender all kitties do, and no kitty was ever bred |
| Listings.ListingValidity | pallets/kitties/src/lib.rs:176-225 | main: a kitty has price p if and only if some owner's update with that price is the last event to touch it; and that account owned it in every state of the run since |
| Listings.SalesConsumeListings | pallets/kitties/src/lib.rs:193-225 | main: an injective map takes the sales of a run to earlier price updates by the same seller, of the same kitty, at the exact price paid, with nothing touching the kitty between |
| Listings.OwnersActNeeded | pallets/kitties/src/lib.rs:176-225 | main: a kitty leaves an account only by a transfer that account signed, or by a sale at the price that account last set, which it is paid |
| Runs.DoubleBookkeeping | pallets/kitties/src/lib.rs:271-279 | main: token table and owner index agree, owners are unique, ids are those below the counter, only minted kitties are listed |
| Runs.BalancesAreSales | pallets/kitties/src/lib.rs:207-225 | main: each balance is its genesis value, plus what other pallets did, plus the net of the sales in the log |
| Runs.MoneyConserved | pallets/kitties/src/lib.rs:207-225 | main: the sum of all balances changes only by what other pallets do |
| Runs.BuyIsAllOrNothing | pallets/kitties/src/lib.rs:207-225 | main: `buy` as dispatched and as a step, in every reachable state: it succeeds exactly when the named seller owns the listed kitty, the price is at most the maximum and the buyer can pay; then precisely the listed price and the kitty move, the listing goes and the sale is announced; otherwise nothing changes |
| Laws.CreateLaw | pallets/kitties/src/lib.rs:149-162 | main: `create` succeeds exactly while ids are left; the signer then has a new kitty with the random DNA under the next id, announced so, and nothing else changed |
| Laws.BreedLaw | pallets/kitties/src/lib.rs:166-172 | main: `breed` succeeds exactly for two kitties of the signer's of different gender while ids are left; the signer then has the child inherited bit by bit by the random selector, and nothing else changed |
| Laws.TransferLaw | pallets/kitties/src/lib.rs:176-188 | main: `transfer` succeeds exactly for the owner; the account named then has the kitty, its listing is gone and the transfer announced; to oneself nothing changes |
| Laws.SetPriceLaw | pallets/kitties/src/lib.rs:193-203 | main: `set_price` succeeds exactly for the owner; the kitty is then listed at exactly the price asked for, or not listed for None, with that very value announced, and no other listing changed |
| Laws.UnsignedLaw | pallets/kitties/src/lib.rs:228-262 | main: an unsigned extrinsic that is not valid does nothing; a valid one advances the nonce, and breeds for the first kitty's owner exactly when the two are mates and an id is left |
| Laws.WorkerLaw | pallets/kitties/src/lib.rs:325-374 | main: in numbers, for every stream: the ids drawn are the remainders of consecutive draws, the first pair of mates among at most 500 is taken, and the first fitting solution prefix * 2^32 + i within the rest of 501 is submitted with the stored nonce |
| Runs.SupplyIsPermanent | pallets/kitties/src/lib.rs:149-162 | main: the counter is the number of births in the log and never falls; kitties, their DNA and the class id are permanent over every continuation |
| Refusals.RefusedExactlyWhen | pallets/kitties/src/lib.rs:149-235 | main: in every reachable state each call succeeds, or fails with one particular error, as told by the book and the balances; never for a missing class, and `buy` never for a missing token |
| Nonces.NoncesInOrder | pallets/kitties/src/lib.rs:242-262 | main: the i-th accepted nonce is min(i, 2^32-1), and the stored nonce is min(number accepted, 2^32-1) |
| Nonces.ReplayableIffSaturated | pallets/kitties/src/lib.rs:250 | main: for every hash function, a nonce is accepted twice in some run if and only if it is the saturated one and every nonce is passable |
| Nonces.AutoBredPlusWasted | pallets/kitties/src/lib.rs:228-262 | main: auto-bred kitties and wasted validations, whose pair cannot breed or finds no id left, add up to the accepted validations |
| Mining.WorkerNeverMissesToken | pallets/kitties/src/lib.rs:345-361 | main: in reachable states no token lookup fails, and the worker gives up if and only if its first 500 pairs all are of one gender |
| Mining.OneGenderMinesNothing | pallets/kitties/src/lib.rs:345-361 | main: while all created kitties have one gender the worker draws exactly 500 pairs and submits nothing |
| Difficulty.AcceptedHashes | pallets/kitties/src/lib.rs:316-323 | main: at difficulty d exactly floor((2^128-1)/d) of all hashes are accepted, and d times that count is within 2^128-1 while one more would not be |
| Genetics.CombineIffInherits | pallets/kitties/src/lib.rs:300-306 | main: a genome is the combined one if and only if it takes every bit from the parent its selector bit names |
| Genetics.CrossoverConserves | pallets/kitties/src/lib.rs:300-306 | main: for genomes of any length, the two complementary children have, byte by byte, the parents' integer sum and per-bit counts |
| Pallet.Pallet.TakeSteps | pallets/kitties/src/lib.rs:144-263 | main: any sequence of steps leaves the storage of the run; from genesis the storage agrees with the replay of its events, and these are legal |
| Pallet.Pallet.Buy | pallets/kitties/src/lib.rs:207-225 | main: with the rollback of its transaction, an error leaves the storage as it was and success is the one-step sale of the state machine |
| Pallet.Pallet.RunOffchainWorker | pallets/kitties/src/lib.rs:325-374 | main: terminates for every state and random stream with the behaviour `Mines` describes |
| Bytes.CombineDnaBit | pallets/kitties/src/lib.rs:266-268 | each bit of a combined byte is the second parent's where the selector bit is 1 and the first parent's elsewhere |
| Bytes.ByteIsSumOfBits | pallets/kitties/src/lib.rs:266-268 | a byte as a number is the weighted sum of its bits, tying bitwise and arithmetic readings |
| Bytes.ByteCrossoverSum | pallets/kitties/src/lib.rs:266-268 | the bytes bred with a selector and with its complement add up to the parents' bytes |
| Bytes.BitsDetermineByte | pallets/kitties/src/lib.rs:266-268 | bytes with the same eight bits are equal |
| Genetics.SwapParentsIsComplement | pallets/kitties/src/lib.rs:300-306 | swapping the parents gives the child of the complemented selector, for genomes of any length |
| Genetics.GenderIsLowestBit | pallets/kitties/src/lib.rs:46-52 | the gender computed by a remainder is bit 0 of byte 0 |
| Genetics.GenderFollowsSelector | pallets/kitties/src/lib.rs:295-306 | the child has the first parent's gender exactly when the lowest selector bit is 0, the second's exactly when it is 1 |
| Genetics.Crossover | pallets/kitties/src/lib.rs:301-306 | the loop over a zeroed array ends with the genome inherited bit by bit |
| Difficulty.FromLeToLe | pallets/kitties/src/lib.rs:319 | decoding inverts little-endian encoding, at every length |
| Difficulty.ToLeFromLe | pallets/kitties/src/lib.rs:319 | encoding inverts decoding, at every length |
| Difficulty.DecodingIsBijective | pallets/kitties/src/lib.rs:319 | 16-byte hashes and `u128` values correspond one to one |
| Difficulty.HarderAcceptsLess | pallets/kitties/src/lib.rs:320-322 | a hash accepted at a higher difficulty is accepted at every lower one |
| Difficulty.AcceptsMeans | pallets/kitties/src/lib.rs:319-322 | a hash passes at difficulty d exactly when d times (its number plus one) is at most 2^128-1 |
| Difficulty.FromLeConcat | pallets/kitties/src/lib.rs:319 | decoding is positional, least significant byte first, at every length |
| Difficulty.SingleByte | pallets/kitties/src/lib.rs:319 | one byte decodes to its value |
| Difficulty.CandidateUnpacks | pallets/kitties/src/lib.rs:366 | a candidate loses nothing to shift or sum; prefix and trial index are its quotient and remainder by 2^32 |
| Difficulty.CandidatesDistinct | pallets/kitties/src/lib.rs:366 | two candidates are equal only if prefix and index are |
| Currency.TransferConserves | pallets/kitties/src/lib.rs:219 | a payment leaves the sum of all balances unchanged |
| Kitties.GenesisIsGenesis | pallets/kitties/src/lib.rs:96-103 | genesis fails exactly when no class id is left; otherwise it starts with a new class without kitties, listings, events, and nonce 0, and leaves balances and other classes as they were |
| Kitties.RunAppend | pallets/kitties/src/lib.rs:144-236 | running two sequences of steps one after the other is running their concatenation |
| Pallet.Pallet.BuildGenesis | pallets/kitties/src/lib.rs:96-103 | creates the class in place and stores its id, or reports the panic; the storage is the genesis state |
| Pallet.Pallet.Create | pallets/kitties/src/lib.rs:149-162 | new storage and result are those of the state machine, for every origin |
| Pallet.Pallet.Breed | pallets/kitties/src/lib.rs:166-172 | new storage and result are those of the state machine, for every origin |
| Pallet.Pallet.DoBreed | pallets/kitties/src/lib.rs:290-314 | checks genders, runs the crossover loop, mints, emits, as the state machine says |
| Pallet.Pallet.Transfer | pallets/kitties/src/lib.rs:176-188 | new storage and result are those of the state machine, self-transfers included |
| Pallet.Pallet.SetPrice | pallets/kitties/src/lib.rs:193-203 | checks the owner index and sets or removes the price, as the state machine says |
| Pallet.Pallet.BuyInTransaction | pallets/kitties/src/lib.rs:213-224 | moves the kitty, then the money; on an error the kitty is left moved, and nothing else changed, exactly when all checks and the move succeeded and the payment failed |
| Pallet.Pallet.AutoBreed | pallets/kitties/src/lib.rs:228-235 | accepts only the unsigned origin and breeds for the first kitty's owner, from the token table |
| Pallet.Pallet.ValidateUnsigned | pallets/kitties/src/lib.rs:242-262 | verdict and nonce are those of the state machine |
| Pallet.Pallet.TakeStep | pallets/kitties/src/lib.rs:144-263 | the storage written in place takes exactly the steps of runs |
| Pallet.Pallet.DrawPair | pallets/kitties/src/lib.rs:343-361 | the first loop stops at the first pair that is no dud, and the `u128` counter is what is left of 500 and never underflows |
| Pallet.Pallet.TrySolutions | pallets/kitties/src/lib.rs:363-371 | the second loop stops at the first valid solution and submits it, or uses up the budget |
| Ledger.MintAppends | pallets/kitties/src/lib.rs:156-159 | minting appends one kitty to the book in both tables and the counter, and fails exactly when ids are exhausted |
| Ledger.TransferMoves | pallets/kitties/src/lib.rs:179-179 | moving a kitty changes one owner in both tables, and works exactly for the owner |
| Ledger.StepExplained | pallets/kitties/src/lib.rs:144-263 | a step emits nothing and changes nothing of tables, prices and balances, or emits one event that was legal and has precisely its effect |
| Runs.PalletCallsConserveMoney | pallets/kitties/src/lib.rs:144-236 | a run of pallet calls alone keeps the sum of all balances |
| Runs.MintsAreConsecutive | pallets/kitties/src/lib.rs:156-159 | each created or bred kitty has as id the number of kitties born before |
| Runs.SilentCallsChangeNothing | pallets/kitties/src/lib.rs:176-188 | a failed call changes nothing; a call emits nothing if and only if it changes nothing; it then succeeds only as the transfer of an own kitty to oneself |
| Runs.BuyOutcome | pallets/kitties/src/lib.rs:207-225 | exactly when a sale happens, its whole effect, and that a refused one has none, for any storage that agrees with a book |
| Runs.BirthIdsIncrease | pallets/kitties/src/lib.rs:156-159 | ids grow strictly along the births in the log, so none is used twice |
| Listings.OfferWasListed | pallets/kitties/src/lib.rs:193-203 | a standing offer has a price update with exactly that price, after which nothing touched the kitty |
| Listings.ListingStands | pallets/kitties/src/lib.rs:176-225 | from a listing on, until something touches the kitty, the lister owns it and the offer stands, at every moment |
| Listings.RelistedBetweenSales | pallets/kitties/src/lib.rs:193-225 | between two sales of one kitty its owner of the time has listed it again |
| Lineage.BredStep | pallets/kitties/src/lib.rs:166-172 | the parents of a bred kitty are the two kitties the call named, and its owner is the first one's |
| Lineage.EveryBirthRecorded | pallets/kitties/src/lib.rs:290-314 | every kitty of a run was created, or was combined from two older kitties of different gender with the call's random selector |
| Lineage.SharedBitSpreads | pallets/kitties/src/lib.rs:266-314 | a bit all created kitties share is shared by all kitties |
| Lineage.BredGender | pallets/kitties/src/lib.rs:295-306 | every kitty bred in a run has the first parent's gender exactly when bit 0 of its selector is 0, the second's exactly when it is 1 |
| Nonces.NonceAcceptedOnce | pallets/kitties/src/lib.rs:246-250 | a nonce below 2^32-1 is accepted at most once in any run |
| Nonces.AutoBredAtMostNonce | pallets/kitties/src/lib.rs:228-262 | below saturation the stored nonce is the number of auto-bred kitties plus that of wasted validations, and so bounds the former |
| Nonces.NonceUnchangedIff | pallets/kitties/src/lib.rs:246-250 | the nonce seen earlier is still stored exactly when nothing was accepted since, or it was saturated |
| Nonces.AcceptableCount | pallets/kitties/src/lib.rs:242-262 | for every hash function, some run accepts n validations if and only if the first n nonces all are passable |
| Mining.MinesIsDeterministic | pallets/kitties/src/lib.rs:325-374 | lock, state and random stream determine result, submission and both counts |
| Mining.WorkerBudget | pallets/kitties/src/lib.rs:339-371 | at most 500 pairs are drawn, draws and trials together are at most 501, and a worker that found a pair tries at least one solution |
| Mining.TrialsAreDistinct | pallets/kitties/src/lib.rs:365-367 | no candidate is tried twice in one worker run and none overflows |
| Laws.SolutionMeans | pallets/kitties/src/lib.rs:316-323 | a solution is valid exactly when the difficulty times (the number of the hash of both ids, nonce and solution, plus one) is at most 2^128-1 |
| Laws.VerdictDependsOnPayload | pallets/kitties/src/lib.rs:317-318 | every part of the payload counts: changing the hash of one payload from all zero to all 0xff changes the verdict on exactly those ids, nonce and solution |
| Laws.ValidatorLaw | pallets/kitties/src/lib.rs:242-262 | the verdict is on the call kind exactly for other calls, valid exactly for a fitting hash and the stored nonce, and only the nonce is written, one higher or saturated |
| Laws.EveryPairCanBeDrawn | pallets/kitties/src/lib.rs:345-361 | for any two mates of a reachable state some stream makes the worker take exactly that pair first |

## Left out

- Node, RPC, CLI and chain specification (`node/src`): I/O and wiring of libraries that are not part of this model.
- Runtime configuration (`runtime/src/lib.rs`): only its integer widths are used; difficulty and existential deposit are parameters.
- The template pallet, weights and benchmarks: constants and one stored counter.
- `random_value`, blake2, ChaCha: arbitrary values, no property depends on their quality.
- The storage lock of the worker is an arbitrary boolean, and the submission an output.
- Transaction pool: longevity, propagation and tags of a valid transaction, and validation outside a block.
- Fees, sudo's raw storage writes, reserved and locked balances, dust removal.
- NFT class data, metadata and total issuance.
- Block boundaries: the log is the concatenation of the events of all blocks, and blocks as such do not occur.
- Completeness.EmittableIffLegal: its converse is stated for hash functions that leave every pair a solution, since breeding kitties of two owners needs one; EmittableIffTellable has no such condition.
