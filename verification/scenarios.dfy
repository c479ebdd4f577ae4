/** The repository's client tests, and one concrete lifecycle, stated over the model. */
module TimeLockScenarios {
  import opened Keys
  import opened Ledger
  import opened TimeLock

  /** One tenth of a SOL, the amount the client test locks. */
  const TestAmount: U64 := 100_000_000

  /** The client test: locking 0.1 SOL until two minutes from now succeeds
      and the stored record reads back the amount and the owner; a withdrawal
      in any later transaction before the two minutes are up is then refused
      as still locked. */
  lemma CreateThenEarlyWithdraw(s: State, caller: Pubkey, now: I64, later: I64)
    requires LockAddress(caller) !in s.records
    requires now + 120 < I64Limit
    requires now <= later < now + 120
    requires Balance(s.lamports, Wallet(caller)) >= LockCost(s, caller, TestAmount)
    ensures var r := InitializeLock(s, caller, LockAddress(caller), TestAmount, now + 120, now);
            && r.Success?
            && r.value.records[LockAddress(caller)].amount == TestAmount
            && r.value.records[LockAddress(caller)].owner == caller
            && Withdraw(r.value, caller, LockAddress(caller), later) == Failure(FundsStillLocked)
  {
  }

  /** A full life cycle on concrete numbers: a zero amount or a non-future
      unlock time is refused; Alice locks 1000 lamports at time 1000 until
      4600; her withdrawal at 4000 is refused, Bob cannot withdraw it at all,
      and her withdrawal at exactly 4600 returns the amount and the deposit
      and deletes the record. */
  lemma ConcreteLifecycle()
    ensures var alice := Pubkey([1]);
            var bob := Pubkey([2]);
            var rent := 1_343_280;
            var s0 := State(map[Wallet(alice) := 5_000_000, Wallet(bob) := 7], map[], rent);
            var r1 := InitializeLock(s0, alice, LockAddress(alice), 1000, 4600, 1000);
            && r1.Success?
            && r1.value.records[LockAddress(alice)] == LockRecord(alice, 1000, 4600, 1000)
            && Balance(r1.value.lamports, Wallet(alice)) == 5_000_000 - rent - 1000
            && Withdraw(r1.value, alice, LockAddress(alice), 4000) == Failure(FundsStillLocked)
            && Withdraw(r1.value, bob, LockAddress(alice), 5000) == Failure(Unauthorized)
            && Withdraw(r1.value, bob, LockAddress(bob), 5000) == Failure(NotFound)
            && InitializeLock(r1.value, alice, LockAddress(alice), 5, 9000, 4000) == Failure(AlreadyExists)
            && InitializeLock(s0, alice, LockAddress(alice), 0, 1010, 1000) == Failure(InvalidAmount)
            && InitializeLock(s0, alice, LockAddress(alice), 5, 999, 1000) == Failure(InvalidUnlockTime)
            && InitializeLock(s0, alice, LockAddress(alice), 0, 1000, 1000) == Failure(InvalidUnlockTime)
            && var r2 := Withdraw(r1.value, alice, LockAddress(alice), 4600);
               && r2.Success?
               && r2.value.records == map[]
               && Balance(r2.value.lamports, Wallet(alice)) == 5_000_000
               && Balance(r2.value.lamports, Wallet(bob)) == 7
  {
  }
}
