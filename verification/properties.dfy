/** What the time-locked wallet promises: the order of its guards, the
    record it stores, conservation of lamports, single use of a lock,
    ownership, and the invariant every reachable state keeps. */
module TimeLockProperties {
  import opened Keys
  import opened Ledger
  import opened TimeLock

  /** The account checks of `initialize_lock` pass: the caller passed their own
      derived address, it holds no record, and the caller can pay the deposit. */
  predicate InitAccountsValid(s: State, caller: Pubkey, target: Address)
  {
    && target == LockAddress(caller)
    && target !in s.records
    && Balance(s.lamports, Wallet(caller)) >= RentTopUp(Balance(s.lamports, target), s.rent)
  }

  // ---------------------------------------------------------------------
  // initialize_lock: guards and their order

  /** A lock must end strictly in the future: an unlock time equal to the
      current time is rejected, and the unlock-time error is reported
      whatever the amount is. */
  lemma InitializeLockRejectsNonFutureUnlock(s: State, caller: Pubkey, target: Address, amount: U64, unlockTimestamp: I64, now: I64)
    requires InitAccountsValid(s, caller, target)
    ensures InitializeLock(s, caller, target, amount, unlockTimestamp, now) == Failure(InvalidUnlockTime)
            <==> unlockTimestamp <= now
  {
  }

  /** Once the unlock time is in the future, a zero amount, and only a zero
      amount, is reported as `InvalidAmount`. */
  lemma InitializeLockRejectsZeroAmount(s: State, caller: Pubkey, target: Address, amount: U64, unlockTimestamp: I64, now: I64)
    requires InitAccountsValid(s, caller, target)
    requires unlockTimestamp > now
    ensures InitializeLock(s, caller, target, amount, unlockTimestamp, now) == Failure(InvalidAmount)
            <==> amount == 0
  {
  }

  /** The deposit is charged while the accounts are validated, before the
      handler runs: a caller who cannot pay it is refused with
      `InsufficientBalance` even when the unlock time or the amount is bad. */
  lemma InitializeLockChargesDepositFirst(s: State, caller: Pubkey, amount: U64, unlockTimestamp: I64, now: I64)
    requires LockAddress(caller) !in s.records
    requires Balance(s.lamports, Wallet(caller)) < RentTopUp(Balance(s.lamports, LockAddress(caller)), s.rent)
    ensures InitializeLock(s, caller, LockAddress(caller), amount, unlockTimestamp, now) == Failure(InsufficientBalance)
  {
  }

  /** Creating over an existing record fails, whatever the other arguments. */
  lemma InitializeLockRejectsExisting(s: State, caller: Pubkey, amount: U64, unlockTimestamp: I64, now: I64)
    requires LockAddress(caller) in s.records
    ensures InitializeLock(s, caller, LockAddress(caller), amount, unlockTimestamp, now) == Failure(AlreadyExists)
  {
  }

  /** Only the caller's own derived address can be initialised by the caller. */
  lemma InitializeLockRejectsForeignAddress(s: State, caller: Pubkey, target: Address, amount: U64, unlockTimestamp: I64, now: I64)
    requires target != LockAddress(caller)
    ensures InitializeLock(s, caller, target, amount, unlockTimestamp, now) == Failure(Unauthorized)
  {
  }

  /** With valid accounts and arguments, the only remaining failure is a
      caller who cannot pay the deposit and the amount together. */
  lemma InitializeLockNeedsFunds(s: State, caller: Pubkey, target: Address, amount: U64, unlockTimestamp: I64, now: I64)
    requires InitAccountsValid(s, caller, target)
    requires unlockTimestamp > now && amount > 0
    ensures InitializeLock(s, caller, target, amount, unlockTimestamp, now).Failure?
            <==> Balance(s.lamports, Wallet(caller)) < LockCost(s, caller, amount)
    ensures InitializeLock(s, caller, target, amount, unlockTimestamp, now).Failure?
            ==> InitializeLock(s, caller, target, amount, unlockTimestamp, now).error == InsufficientBalance
  {
  }

  // ---------------------------------------------------------------------
  // initialize_lock: effect

  /** A new lock records the caller as owner, the amount, the unlock time and
      the creation time, and satisfies the live-record invariant. */
  lemma InitializeLockStoresRecord(s: State, caller: Pubkey, target: Address, amount: U64, unlockTimestamp: I64, now: I64)
    requires InitializeLock(s, caller, target, amount, unlockTimestamp, now).Success?
    ensures var s' := InitializeLock(s, caller, target, amount, unlockTimestamp, now).value;
            && target == LockAddress(caller)
            && target in s'.records
            && s'.records[target].owner == caller
            && s'.records[target].amount == amount
            && s'.records[target].unlockTimestamp == unlockTimestamp
            && s'.records[target].createdAt == now
            && LiveRecord(s', target)
  {
  }

  /** `initialize_lock` only relocates lamports: any set of accounts holding
      both the caller's wallet and the new record's account, or neither,
      keeps its total. */
  lemma InitializeLockConserves(s: State, caller: Pubkey, target: Address, amount: U64, unlockTimestamp: I64, now: I64, accounts: set<Address>)
    requires InitializeLock(s, caller, target, amount, unlockTimestamp, now).Success?
    requires (Wallet(caller) in accounts && target in accounts) || (Wallet(caller) !in accounts && target !in accounts)
    ensures SumOver(InitializeLock(s, caller, target, amount, unlockTimestamp, now).value.lamports, accounts)
            == SumOver(s.lamports, accounts)
  {
    var payer := Wallet(caller);
    var topUp := RentTopUp(Balance(s.lamports, target), s.rent);
    var paidRent := Move(s.lamports, payer, target, topUp);
    var funded := Move(paidRent, payer, target, amount);
    assert InitializeLock(s, caller, target, amount, unlockTimestamp, now).value.lamports == funded;
    MoveConserves(s.lamports, payer, target, topUp, accounts);
    MoveConserves(paidRent, payer, target, amount, accounts);
  }

  lemma InitializeLockPreservesValid(s: State, caller: Pubkey, target: Address, amount: U64, unlockTimestamp: I64, now: I64)
    requires Valid(s)
    requires InitializeLock(s, caller, target, amount, unlockTimestamp, now).Success?
    ensures Valid(InitializeLock(s, caller, target, amount, unlockTimestamp, now).value)
  {
    var s' := InitializeLock(s, caller, target, amount, unlockTimestamp, now).value;
    forall a | a in s'.records
      ensures LiveRecord(s', a)
    {
      if a != target {
        assert LiveRecord(s, a);
        LockAddressIsNoWallet(s.records[a].owner, caller);
      }
    }
  }

  // ---------------------------------------------------------------------
  // withdraw

  /** The account checks of `withdraw` pass: a record is at the caller's own
      derived address and names the caller as owner. */
  predicate WithdrawAccountsValid(s: State, caller: Pubkey, target: Address)
  {
    && target in s.records
    && target == LockAddress(caller)
    && s.records[target].owner == caller
  }

  /** Withdrawal is refused exactly while the unlock time is still ahead;
      at the unlock instant itself it is allowed. */
  lemma WithdrawRejectsEarly(s: State, caller: Pubkey, target: Address, now: I64)
    requires WithdrawAccountsValid(s, caller, target)
    ensures Withdraw(s, caller, target, now) == Failure(FundsStillLocked)
            <==> now < s.records[target].unlockTimestamp
    ensures now == s.records[target].unlockTimestamp ==> Withdraw(s, caller, target, now).Success?
  {
  }

  /** No record at the address: not found, whoever asks and whenever. */
  lemma WithdrawRejectsMissing(s: State, caller: Pubkey, target: Address, now: I64)
    requires target !in s.records
    ensures Withdraw(s, caller, target, now) == Failure(NotFound)
  {
  }

  /** A successful withdrawal pays out everything the record's account holds,
      which in a valid state is at least the deposit plus the locked amount,
      and leaves the account empty. */
  lemma WithdrawReleasesEverything(s: State, caller: Pubkey, target: Address, now: I64)
    requires Valid(s)
    requires Withdraw(s, caller, target, now).Success?
    ensures var s' := Withdraw(s, caller, target, now).value;
            && Balance(s'.lamports, target) == 0
            && Balance(s'.lamports, Wallet(caller)) >= Balance(s.lamports, Wallet(caller)) + s.rent + s.records[target].amount
  {
    assert LiveRecord(s, target);
  }

  /** `withdraw` only relocates lamports: any set of accounts holding both the
      caller's wallet and the record's account, or neither, keeps its total. */
  lemma WithdrawConserves(s: State, caller: Pubkey, target: Address, now: I64, accounts: set<Address>)
    requires Withdraw(s, caller, target, now).Success?
    requires (Wallet(caller) in accounts && target in accounts) || (Wallet(caller) !in accounts && target !in accounts)
    ensures SumOver(Withdraw(s, caller, target, now).value.lamports, accounts) == SumOver(s.lamports, accounts)
  {
    var dest := Wallet(caller);
    var swept := State(Move(s.lamports, target, dest, Balance(s.lamports, target)), s.records, s.rent);
    var closed := Close(swept, target, dest);
    assert Withdraw(s, caller, target, now).value == closed;
    MoveConserves(s.lamports, target, dest, Balance(s.lamports, target), accounts);
    MoveConserves(swept.lamports, target, dest, Balance(swept.lamports, target), accounts);
  }

  /** A lock is used once: after a successful withdrawal, a second one on the
      same address fails as not found, for every caller and every time. */
  lemma WithdrawSingleUse(s: State, caller: Pubkey, target: Address, now: I64, caller2: Pubkey, later: I64)
    requires Withdraw(s, caller, target, now).Success?
    ensures Withdraw(Withdraw(s, caller, target, now).value, caller2, target, later) == Failure(NotFound)
  {
  }

  /** Nobody but a record's owner can move its lamports or remove it: a
      withdrawal by anyone else, naming any address at any time, leaves that
      record and its balance untouched, and naming the record itself fails. */
  lemma WithdrawOwnerOnly(s: State, a: Address, caller: Pubkey, target: Address, now: I64)
    requires Valid(s)
    requires a in s.records && caller != s.records[a].owner
    ensures target == a ==> Withdraw(s, caller, target, now) == Failure(Unauthorized)
    ensures var r := Withdraw(s, caller, target, now);
            r.Success? ==> a in r.value.records && r.value.records[a] == s.records[a]
                           && Balance(r.value.lamports, a) == Balance(s.lamports, a)
  {
    assert LiveRecord(s, a);
  }

  lemma WithdrawPreservesValid(s: State, caller: Pubkey, target: Address, now: I64)
    requires Valid(s)
    requires Withdraw(s, caller, target, now).Success?
    ensures Valid(Withdraw(s, caller, target, now).value)
  {
    var s' := Withdraw(s, caller, target, now).value;
    forall a | a in s'.records
      ensures LiveRecord(s', a)
    {
      assert LiveRecord(s, a);
      LockAddressIsNoWallet(s.records[a].owner, caller);
    }
  }

  /** Locking and then withdrawing at or after the unlock time is a round trip:
      the records are back as they were, the record's account is empty, the
      caller holds what they held plus anything that had been sent to the
      address beforehand, and no other account changed. */
  lemma LockThenWithdrawRoundTrip(s: State, caller: Pubkey, amount: U64, unlockTimestamp: I64, now: I64, later: I64)
    requires InitializeLock(s, caller, LockAddress(caller), amount, unlockTimestamp, now).Success?
    requires later >= unlockTimestamp
    ensures var s1 := InitializeLock(s, caller, LockAddress(caller), amount, unlockTimestamp, now).value;
            var r := Withdraw(s1, caller, LockAddress(caller), later);
            && r.Success?
            && r.value.records == s.records
            && Balance(r.value.lamports, LockAddress(caller)) == 0
            && Balance(r.value.lamports, Wallet(caller)) == Balance(s.lamports, Wallet(caller)) + Balance(s.lamports, LockAddress(caller))
            && forall a :: a != LockAddress(caller) && a != Wallet(caller) ==> Balance(r.value.lamports, a) == Balance(s.lamports, a)
  {
    var target := LockAddress(caller);
    var s1 := InitializeLock(s, caller, target, amount, unlockTimestamp, now).value;
    assert s1.records - {target} == s.records;
  }

  // ---------------------------------------------------------------------
  // Plain transfers while a lock is live

  /** Lamports sent to any account, a live record's included, keep every
      record live: a record's account can only gain from a transfer. */
  lemma SystemTransferPreservesValid(s: State, caller: Pubkey, to: Address, n: nat)
    requires Valid(s)
    requires SystemTransfer(s, caller, to, n).Success?
    ensures Valid(SystemTransfer(s, caller, to, n).value)
  {
    var s' := SystemTransfer(s, caller, to, n).value;
    forall a | a in s'.records
      ensures LiveRecord(s', a)
    {
      assert LiveRecord(s, a);
      LockAddressIsNoWallet(s.records[a].owner, caller);
    }
  }

  /** `withdraw` sweeps the whole account, so lamports anyone sent to a live
      record go to its owner along with the locked amount and the deposit. */
  lemma LateDepositIsSwept(s: State, sender: Pubkey, owner: Pubkey, n: nat, now: I64)
    requires Valid(s)
    requires LockAddress(owner) in s.records && s.records[LockAddress(owner)].owner == owner
    requires sender != owner
    requires SystemTransfer(s, sender, LockAddress(owner), n).Success?
    requires now >= s.records[LockAddress(owner)].unlockTimestamp
    ensures var s1 := SystemTransfer(s, sender, LockAddress(owner), n).value;
            var r := Withdraw(s1, owner, LockAddress(owner), now);
            && r.Success?
            && Balance(r.value.lamports, Wallet(owner))
               == Balance(s.lamports, Wallet(owner)) + Balance(s.lamports, LockAddress(owner)) + n
            && Balance(r.value.lamports, Wallet(owner))
               >= Balance(s.lamports, Wallet(owner)) + s.rent + s.records[LockAddress(owner)].amount + n
  {
    assert LiveRecord(s, LockAddress(owner));
    LockAddressIsNoWallet(owner, sender);
  }

  // ---------------------------------------------------------------------
  // Whole-ledger invariants

  /** In a valid state an owner has at most one live record, and it is at the
      owner's derived address. */
  lemma OneRecordPerOwner(s: State, a: Address, b: Address)
    requires Valid(s)
    requires a in s.records && b in s.records
    ensures s.records[a].owner == s.records[b].owner <==> a == b
    ensures a == LockAddress(s.records[a].owner)
  {
    assert LiveRecord(s, a) && LiveRecord(s, b);
  }


  lemma StepPreservesValid(s: State, ix: Instruction)
    requires Valid(s)
    ensures Valid(Step(s, ix))
  {
    match ix
    case InitializeLockIx(caller, target, amount, unlockTimestamp, now) =>
      if InitializeLock(s, caller, target, amount, unlockTimestamp, now).Success? {
        InitializeLockPreservesValid(s, caller, target, amount, unlockTimestamp, now);
      }
    case WithdrawIx(caller, target, now) =>
      if Withdraw(s, caller, target, now).Success? {
        WithdrawPreservesValid(s, caller, target, now);
      }
    case TransferIx(caller, to, n) =>
      if SystemTransfer(s, caller, to, n).Success? {
        SystemTransferPreservesValid(s, caller, to, n);
      }
  }

  /** Every state reachable from a valid one is valid. */
  lemma {:induction false} RunPreservesValid(s: State, ixs: seq<Instruction>)
    requires Valid(s)
    ensures Valid(Run(s, ixs))
    decreases |ixs|
  {
    if ixs != [] {
      StepPreservesValid(s, ixs[0]);
      RunPreservesValid(Step(s, ixs[0]), ixs[1..]);
    }
  }

  /** Every state reachable from a ledger with no records, whatever its
      balances and deposit, is valid. */
  lemma ReachableStatesValid(l: Lamports, rent: nat, ixs: seq<Instruction>)
    ensures Valid(Run(State(l, map[], rent), ixs))
  {
    RunPreservesValid(State(l, map[], rent), ixs);
  }

  /** Records are never modified in place: one that survives a transaction is
      exactly what it was, and the rent constant never changes. */
  lemma StepKeepsRecords(s: State, ix: Instruction, a: Address)
    requires a in s.records && a in Step(s, ix).records
    ensures Step(s, ix).records[a] == s.records[a]
    ensures Step(s, ix).rent == s.rent
  {
  }

  /** The accounts a transaction may touch: the signer's wallet and lock
      address, and the destination of a plain transfer. */
  predicate Covers(accounts: set<Address>, ix: Instruction)
  {
    && Wallet(ix.caller) in accounts
    && LockAddress(ix.caller) in accounts
    && (ix.TransferIx? ==> ix.to in accounts)
  }

  lemma StepConserves(s: State, ix: Instruction, accounts: set<Address>)
    requires Covers(accounts, ix)
    ensures SumOver(Step(s, ix).lamports, accounts) == SumOver(s.lamports, accounts)
  {
    match ix
    case InitializeLockIx(caller, target, amount, unlockTimestamp, now) =>
      if InitializeLock(s, caller, target, amount, unlockTimestamp, now).Success? {
        InitializeLockConserves(s, caller, target, amount, unlockTimestamp, now, accounts);
      }
    case WithdrawIx(caller, target, now) =>
      if Withdraw(s, caller, target, now).Success? {
        WithdrawConserves(s, caller, target, now, accounts);
      }
    case TransferIx(caller, to, n) =>
      if SystemTransfer(s, caller, to, n).Success? {
        MoveConserves(s.lamports, Wallet(caller), to, n, accounts);
      }
  }

  /** No sequence of transactions creates or destroys lamports among the
      accounts their signers own. */
  lemma {:induction false} RunConserves(s: State, ixs: seq<Instruction>, accounts: set<Address>)
    requires forall i :: 0 <= i < |ixs| ==> Covers(accounts, ixs[i])
    ensures SumOver(Run(s, ixs).lamports, accounts) == SumOver(s.lamports, accounts)
    decreases |ixs|
  {
    if ixs != [] {
      StepConserves(s, ixs[0], accounts);
      RunConserves(Step(s, ixs[0]), ixs[1..], accounts);
    }
  }
}
