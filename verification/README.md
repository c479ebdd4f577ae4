# Time-locked wallet — a Dafny model

The time-locked wallet is a Solana program written with Anchor. An owner locks
lamports in a record account at an address derived from the seed
`"time_locked_wallet"` and the owner's key. At or after the unlock timestamp, only
that owner can withdraw everything the account holds, and the record is then
closed.

The model treats the ledger as an immutable value. A `State` holds three
things: the lamport balance of every address, the records the program owns,
and the rent-exempt deposit a record account must carry. Each instruction is
a pure function that returns either a new state or an error kind. `Step`
makes transactions atomic: a failed instruction leaves the state as it was.
`Run` executes a sequence of transactions. A transaction is one of the two instructions or a plain system transfer, so lamports can reach a record account while its lock is live.

Files:
- `keys.dfy` (`Keys`): public keys, wallet and derived addresses, and the `u64`/`i64` ranges.
- `ledger.dfy` (`Ledger`): the balance map, moving lamports between accounts, and the conservation lemma for such moves.
- `time_lock.dfy` (`TimeLock`): the record, the error kinds, `InitializeLock`, `Withdraw`, `Close`, a plain `SystemTransfer`, the invariant `Valid`, and the transaction runner.
- `properties.dfy` (`TimeLockProperties`): guard order, effects, conservation, single use, ownership, and preservation of the invariant.
- `scenarios.dfy` (`TimeLockScenarios`): the repository's client test and a concrete life cycle.

Account validation is modelled in the order Anchor performs it, which is
before the handler body runs.
- For `initialize_lock`, the checks are:
  1. the `seeds` check on the passed address;
  2. `init`, which fails if a record already exists and charges the payer the deposit;
  3. the handler's strict time guard;
  4. the handler's non-zero amount guard;
  5. the transfer of `amount`.
- As a result, a caller who cannot pay the deposit gets `InsufficientBalance` before any `InvalidUnlockTime`. The model follows the code, which runs all of the account constraints first.
- For `withdraw`, the order is: the record must exist (`NotFound`), then the address must be the caller's derived one and the stored owner must be the caller (`Unauthorized`, covering both `seeds` and `has_one`), then the time guard (`FundsStillLocked`).
- `init` only tops up an address that already holds lamports to the deposit (`RentTopUp`). This is why `withdraw`, which sweeps the whole account balance rather than `amount`, can pay out more than `amount` plus the deposit.

## Model

| member | source | states |
|---|---|---|
| Keys.LockAddressInjective | programs/time-locked-wallet/src/lib.rs:72 | distinct owners never share a record address, so an address names exactly one owner |
| Ledger.Move | programs/time-locked-wallet/src/lib.rs:24-33 | a transfer debits the source by `n`, credits the destination by `n`, and leaves every other account unchanged |
| Ledger.MoveConserves | programs/time-locked-wallet/src/lib.rs:24-33 | a transfer neither creates nor destroys lamports: any set of accounts containing both ends, or neither end, keeps its total |
| TimeLock.RentTopUp | programs/time-locked-wallet/src/lib.rs:68-74 | `init` charges the payer the least amount that brings the record's account up to the rent-exempt deposit, and never more than the deposit |
| TimeLock.InitializeLock | programs/time-locked-wallet/src/lib.rs:9-43 | succeeds exactly when the address is the caller's own derived one, holds no record, the unlock time is strictly after `now`, the amount is non-zero, and the caller can pay the part of the deposit the address still lacks (`RentTopUp`) plus the amount; on success it stores `(caller, amount, unlock, now)`, moves exactly that cost from the caller to the record account, and changes no other account |
| TimeLock.Close | programs/time-locked-wallet/src/lib.rs:89 | closing hands all remaining lamports to the destination, leaves the account empty, and removes only that record |
| TimeLock.Withdraw | programs/time-locked-wallet/src/lib.rs:45-60 | succeeds exactly when a record exists at the caller's derived address, names the caller as owner, and `now >= unlock`; on success the whole account balance goes to the caller, the account is left empty, the record is removed, and nothing else changes |
| TimeLockProperties.InitializeLockRejectsNonFutureUnlock | programs/time-locked-wallet/src/lib.rs:14-19 | once accounts are valid, `InvalidUnlockTime` is reported if and only if `unlock <= now` (equality included), whatever the amount |
| TimeLockProperties.InitializeLockRejectsZeroAmount | programs/time-locked-wallet/src/lib.rs:21 | with valid accounts and a future unlock time, `InvalidAmount` is reported if and only if the amount is zero |
| TimeLockProperties.InitializeLockChargesDepositFirst | programs/time-locked-wallet/src/lib.rs:68-74 | a caller who cannot pay the record's deposit is refused with `InsufficientBalance`, even when the unlock time or the amount is also invalid |
| TimeLockProperties.InitializeLockRejectsExisting | programs/time-locked-wallet/src/lib.rs:68-74 | creating at an address that already holds a record fails with `AlreadyExists`, whatever the arguments |
| TimeLockProperties.InitializeLockRejectsForeignAddress | programs/time-locked-wallet/src/lib.rs:72 | a caller cannot initialise any address other than their own derived one |
| TimeLockProperties.InitializeLockNeedsFunds | programs/time-locked-wallet/src/lib.rs:24-33 | with valid accounts and arguments, the instruction fails if and only if the caller holds less than the part of the deposit the address still lacks (`RentTopUp`) plus the amount, and the failure is `InsufficientBalance` |
| TimeLockProperties.InitializeLockStoresRecord | programs/time-locked-wallet/src/lib.rs:35-40 | a new record stores owner = caller, the amount, the unlock time and `created_at = now`, and is live (amount > 0, created before unlock, account holding at least deposit plus amount) |
| TimeLockProperties.InitializeLockConserves | programs/time-locked-wallet/src/lib.rs:24-40 | creating a lock preserves the lamport total of the caller's wallet plus the record account |
| TimeLockProperties.InitializeLockPreservesValid | programs/time-locked-wallet/src/lib.rs:9-43 | creating a lock keeps every record live |
| TimeLockProperties.WithdrawRejectsEarly | programs/time-locked-wallet/src/lib.rs:49-52 | for the record's owner, `FundsStillLocked` is reported if and only if `now < unlock`; at `now == unlock` the withdrawal succeeds |
| TimeLockProperties.WithdrawRejectsMissing | programs/time-locked-wallet/src/lib.rs:92 | withdrawing from an address without a record fails with `NotFound` |
| TimeLockProperties.WithdrawReleasesEverything | programs/time-locked-wallet/src/lib.rs:54-57 | in a valid ledger, a withdrawal empties the record account and pays the owner at least the deposit plus the locked amount |
| TimeLockProperties.WithdrawConserves | programs/time-locked-wallet/src/lib.rs:54-57 | withdrawing preserves the lamport total of the caller's wallet plus the record account |
| TimeLockProperties.WithdrawSingleUse | programs/time-locked-wallet/src/lib.rs:89 | after a successful withdrawal, any further withdrawal on that address fails with `NotFound`, for any caller at any time |
| TimeLockProperties.WithdrawOwnerOnly | programs/time-locked-wallet/src/lib.rs:85-91 | in a valid ledger, a withdrawal by anyone other than a record's owner fails with `Unauthorized` when it names that record, and can never change that record or its balance |
| TimeLockProperties.WithdrawPreservesValid | programs/time-locked-wallet/src/lib.rs:45-60 | withdrawing keeps every remaining record live |
| TimeLockProperties.LockThenWithdrawRoundTrip | programs/time-locked-wallet/src/lib.rs:9-60 | locking then withdrawing at or after the unlock time restores the records, empties the account, and returns to the caller everything they paid plus anything sent to the address before; no other account changes |
| TimeLock.SystemTransfer | programs/time-locked-wallet/src/lib.rs:24-33 | a plain system transfer out of the signer's wallet succeeds exactly when the wallet holds `n`, otherwise fails with `InsufficientBalance`; on success it moves `n` to the destination, whatever account that is, and changes no record and no other account |
| TimeLockProperties.SystemTransferPreservesValid | programs/time-locked-wallet/src/lib.rs:24-33 | in a valid ledger, lamports sent to any account, including a live record's, keep every record live |
| TimeLockProperties.LateDepositIsSwept | programs/time-locked-wallet/src/lib.rs:54-57 | in a valid ledger, lamports someone else sends to a live record are paid to its owner on withdrawal, together with everything the account held before, which is at least deposit plus amount |
| TimeLockProperties.OneRecordPerOwner | programs/time-locked-wallet/src/lib.rs:68-74 | in a valid ledger, two records have the same owner only if they are the same record, and each sits at its owner's derived address |
| TimeLockProperties.ReachableStatesValid | programs/time-locked-wallet/src/lib.rs:9-60 | every state reached from a ledger with no records by any sequence of lock, withdraw and plain-transfer transactions satisfies the invariant, so the lemmas that assume a valid ledger apply to every such run |
| TimeLockProperties.StepPreservesValid | programs/time-locked-wallet/src/lib.rs:9-60 | every transaction, whether it succeeds or fails, keeps the invariant |
| TimeLockProperties.RunPreservesValid | programs/time-locked-wallet/src/lib.rs:9-60 | every state reachable from a valid state is valid |
| TimeLockProperties.StepKeepsRecords | programs/time-locked-wallet/src/lib.rs:95-102 | records are never edited in place: a record that survives a transaction is unchanged |
| TimeLockProperties.StepConserves | programs/time-locked-wallet/src/lib.rs:24-57 | a transaction preserves the lamport total of any account set holding the signer's wallet and lock address, and a plain transfer's destination |
| TimeLockProperties.RunConserves | programs/time-locked-wallet/src/lib.rs:24-57 | a sequence of transactions preserves the lamport total of any account set holding every signer's wallet and lock address, and every plain transfer's destination |
| TimeLockScenarios.CreateThenEarlyWithdraw | tests/anchor.ts:11-74 | locking 0.1 SOL for two minutes succeeds and reads back the amount and owner; a withdrawal at any later time before the two minutes are up fails with `FundsStillLocked` |
| TimeLockScenarios.ConcreteLifecycle | programs/time-locked-wallet/src/lib.rs:9-60 | on concrete numbers: the bad-argument errors, the early-withdraw refusal, the refusal of another signer, the duplicate-init refusal, and a withdrawal at exactly the unlock instant that restores the balance |

## Left out

- Anchor macros, Borsh serialisation, the 8-byte discriminator, the `LEN` layout, and `declare_id!`. These are framework code, not logic of the program. The rent deposit for a record of `LEN` bytes is the state's `rent` field.
- The `bump` byte stored in the record, and the hashing behind program-derived addresses. A derived address is a datatype constructor of the seed and the owner's key, so it is injective and never equal to a wallet.
- `Clock::get()`. The time is the parameter `now`, because the clock is an external oracle.
- The system-program CPI and `try_borrow_mut_lamports`. Both are modelled as `Ledger.Move` on the balance map.
- Transaction fees, signature checking, and concurrent transactions. The signer is the `caller` parameter, and each transaction is atomic.
- The runtime's rent-state rule. It rejects any transaction that leaves the payer's wallet above 0 lamports but below the wallet's own rent-exempt minimum. So `InitializeLock` and `SystemTransfer` succeed in the model in some cases where a real cluster refuses the transaction.
- Lamport overflow. Balances are unbounded naturals, because the total lamport supply is far below 2^64, so the `u64` additions in the source cannot wrap. The record's `amount` and timestamps do keep their `u64`/`i64` ranges.
- Anchor's rejection (`InvalidProgramId`) when the account passed as `system_program` is not the System Program. The client always passes the System Program.
- Credits to a record account by other programs. Plain system transfers are modelled, as `TransferIx`, at any point in a run. Lamports that other programs move into an account are not modelled.
