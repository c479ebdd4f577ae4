/** The time-locked wallet program: one escrow record per owner, created by
    `InitializeLock` and consumed by `Withdraw`. Each instruction is a pure
    function from the ledger state to either a new state or an error; a
    failed instruction commits nothing (see `Step`). */
module TimeLock {
  import opened Keys
  import opened Ledger

  /** The record stored at `LockAddress(owner)`. */
  datatype LockRecord = LockRecord(owner: Pubkey, amount: U64, unlockTimestamp: I64, createdAt: I64)

  /** The program's own error codes, followed by the account-validation
      failures of the framework that the instructions can run into. */
  datatype Error =
    | InvalidUnlockTime    // unlock timestamp not strictly in the future
    | InvalidAmount        // zero amount
    | FundsStillLocked     // withdrawal before the unlock timestamp
    | AlreadyExists        // `init` over an address that already holds a record
    | NotFound             // no record at the address passed to `withdraw`
    | Unauthorized         // address is not the signer's derived one (`seeds`) or stored owner differs (`has_one`)
    | InsufficientBalance  // the signer cannot pay the deposit or the amount

  datatype Result<T> = Success(value: T) | Failure(error: Error)

  /** Ledger state visible to the program: balances of every account, the
      records the program owns, and the rent-exempt deposit a record's
      account must hold (a cluster constant for the record's size). */
  datatype State = State(lamports: Lamports, records: map<Address, LockRecord>, rent: nat)

  /** What `init` charges the payer: only what the address still lacks of the
      deposit, since lamports may have been sent there before the record existed. */
  function RentTopUp(held: nat, rent: nat): (topUp: nat)
    ensures held + topUp >= rent
    ensures topUp <= rent
    ensures topUp > 0 ==> held + topUp == rent
  {
    if held >= rent then 0 else rent - held
  }

  /** The signer's total cost of a successful `InitializeLock`. */
  function LockCost(s: State, owner: Pubkey, amount: U64): nat
  {
    RentTopUp(Balance(s.lamports, LockAddress(owner)), s.rent) + amount
  }

  /** The `initialize_lock` instruction, signed by `caller`, with `target` the
      record account the client passed. Account validation runs first (the
      address must be the caller's derived one, no record may live there,
      the caller must pay the deposit), then the handler's two guards, then
      the transfer of `amount` into the record's account. */
  function InitializeLock(s: State, caller: Pubkey, target: Address, amount: U64, unlockTimestamp: I64, now: I64): (r: Result<State>)
    ensures r.Success? <==>
              && target == LockAddress(caller)
              && target !in s.records
              && unlockTimestamp > now
              && amount > 0
              && Balance(s.lamports, Wallet(caller)) >= LockCost(s, caller, amount)
    ensures r.Success? ==>
              && r.value.records == s.records[target := LockRecord(caller, amount, unlockTimestamp, now)]
              && r.value.rent == s.rent
    ensures r.Success? ==>
              && Balance(r.value.lamports, Wallet(caller)) + LockCost(s, caller, amount) == Balance(s.lamports, Wallet(caller))
              && Balance(r.value.lamports, target) == Balance(s.lamports, target) + LockCost(s, caller, amount)
              && Balance(r.value.lamports, target) >= s.rent + amount
              && forall a :: a != target && a != Wallet(caller) ==> Balance(r.value.lamports, a) == Balance(s.lamports, a)
  {
    var record := LockAddress(caller);
    var payer := Wallet(caller);
    if target != record then Failure(Unauthorized)
    else if record in s.records then Failure(AlreadyExists)
    else
      var topUp := RentTopUp(Balance(s.lamports, record), s.rent);
      if Balance(s.lamports, payer) < topUp then Failure(InsufficientBalance)
      else
        var paidRent := Move(s.lamports, payer, record, topUp);
        if !(unlockTimestamp > now) then Failure(InvalidUnlockTime)
        else if !(amount > 0) then Failure(InvalidAmount)
        else if Balance(paidRent, payer) < amount then Failure(InsufficientBalance)
        else
          var funded := Move(paidRent, payer, record, amount);
          Success(State(funded, s.records[record := LockRecord(caller, amount, unlockTimestamp, now)], s.rent))
  }

  /** `close = owner`: hands whatever lamports remain in `target` to `dest`
      and deletes the record. */
  function Close(s: State, target: Address, dest: Address): (r: State)
    ensures target !in r.records
    ensures forall a :: a in r.records <==> a in s.records && a != target
    ensures forall a :: a in r.records ==> r.records[a] == s.records[a]
    ensures target != dest ==> Balance(r.lamports, target) == 0
    ensures target != dest ==> Balance(r.lamports, dest) == Balance(s.lamports, dest) + Balance(s.lamports, target)
    ensures forall a :: a != target && a != dest ==> Balance(r.lamports, a) == Balance(s.lamports, a)
  {
    var remaining := Balance(s.lamports, target);
    State(Move(s.lamports, target, dest, remaining), s.records - {target}, s.rent)
  }

  /** The `withdraw` instruction, signed by `caller`, with `target` the record
      account the client passed. The account must hold a record, be the
      caller's derived address and name the caller as owner; then the
      handler checks the clock, moves every lamport the account holds to
      the caller, and the account is closed to the caller. */
  function Withdraw(s: State, caller: Pubkey, target: Address, now: I64): (r: Result<State>)
    ensures r.Success? <==>
              && target in s.records
              && target == LockAddress(caller)
              && s.records[target].owner == caller
              && now >= s.records[target].unlockTimestamp
    ensures r.Success? ==>
              && r.value.records == s.records - {target}
              && r.value.rent == s.rent
    ensures r.Success? ==>
              && Balance(r.value.lamports, target) == 0
              && Balance(r.value.lamports, Wallet(caller)) == Balance(s.lamports, Wallet(caller)) + Balance(s.lamports, target)
              && forall a :: a != target && a != Wallet(caller) ==> Balance(r.value.lamports, a) == Balance(s.lamports, a)
  {
    if target !in s.records then Failure(NotFound)
    else
      var record := s.records[target];
      if target != LockAddress(caller) then Failure(Unauthorized)
      else if record.owner != caller then Failure(Unauthorized)
      else if !(now >= record.unlockTimestamp) then Failure(FundsStillLocked)
      else
        var held := Balance(s.lamports, target);
        var swept := State(Move(s.lamports, target, Wallet(caller), held), s.records, s.rent);
        var closed := Close(swept, target, Wallet(caller));
        assert closed.records == s.records - {target};
        Success(closed)
  }

  /** A live record: at its owner's derived address, locking a positive
      amount until a time after its creation, with its account holding at
      least the deposit plus the amount. */
  predicate LiveRecord(s: State, a: Address)
    requires a in s.records
  {
    var rec := s.records[a];
    && a == LockAddress(rec.owner)
    && rec.amount > 0
    && rec.createdAt < rec.unlockTimestamp
    && Balance(s.lamports, a) >= s.rent + rec.amount
  }

  /** The invariant every reachable ledger state keeps. */
  predicate Valid(s: State)
  {
    forall a :: a in s.records ==> LiveRecord(s, a)
  }

  /** A plain system transfer out of the signer's wallet, which is not part of
      the program but may credit any account, a live record's included. */
  function SystemTransfer(s: State, caller: Pubkey, to: Address, n: nat): (r: Result<State>)
    ensures r.Success? <==> Balance(s.lamports, Wallet(caller)) >= n
    ensures r.Failure? ==> r.error == InsufficientBalance
    ensures r.Success? ==> r.value.records == s.records && r.value.rent == s.rent
    ensures r.Success? && to != Wallet(caller) ==>
              && Balance(r.value.lamports, to) == Balance(s.lamports, to) + n
              && Balance(r.value.lamports, Wallet(caller)) + n == Balance(s.lamports, Wallet(caller))
    ensures r.Success? ==> forall a :: a != to && a != Wallet(caller) ==> Balance(r.value.lamports, a) == Balance(s.lamports, a)
  {
    if Balance(s.lamports, Wallet(caller)) < n then Failure(InsufficientBalance)
    else Success(State(Move(s.lamports, Wallet(caller), to, n), s.records, s.rent))
  }

  /** One transaction, signed by `caller`: one of the program's two
      instructions at ledger time `now`, or a plain transfer. */
  datatype Instruction =
    | InitializeLockIx(caller: Pubkey, target: Address, amount: U64, unlockTimestamp: I64, now: I64)
    | WithdrawIx(caller: Pubkey, target: Address, now: I64)
    | TransferIx(caller: Pubkey, to: Address, n: nat)

  function Execute(s: State, ix: Instruction): Result<State>
  {
    match ix
    case InitializeLockIx(caller, target, amount, unlockTimestamp, now) =>
      InitializeLock(s, caller, target, amount, unlockTimestamp, now)
    case WithdrawIx(caller, target, now) =>
      Withdraw(s, caller, target, now)
    case TransferIx(caller, to, n) =>
      SystemTransfer(s, caller, to, n)
  }

  /** Transactions are atomic: a failed instruction leaves the ledger as it was. */
  function Step(s: State, ix: Instruction): State
  {
    match Execute(s, ix)
    case Success(s') => s'
    case Failure(_) => s
  }

  /** Executes transactions one after another. */
  function Run(s: State, ixs: seq<Instruction>): State
    decreases |ixs|
  {
    if ixs == [] then s else Run(Step(s, ixs[0]), ixs[1..])
  }
}
