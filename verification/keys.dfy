/** Identities, addresses and the fixed-width integers of the ledger the
    time-locked wallet program runs on. */
module Keys {

  /** A public key. Only equality between keys is ever used. */
  datatype Pubkey = Pubkey(bytes: seq<bv8>)

  /** An account address: either a user's own wallet, or an address derived
      by the program from a seed and an owner key. Distinct constructors and
      distinct arguments give distinct addresses, which stands in for the
      collision resistance of program-address derivation. */
  datatype Address = Wallet(key: Pubkey) | Derived(seed: string, owner: Pubkey)

  /** The domain seed mixed into every lock record's address. */
  const LockSeed: string := "time_locked_wallet"

  /** Where the lock record of `owner` lives: derived from the seed and the
      owner's key only. */
  function LockAddress(owner: Pubkey): Address
  {
    Derived(LockSeed, owner)
  }

  /** Two owners never share a lock address. */
  lemma LockAddressInjective(a: Pubkey, b: Pubkey)
    ensures LockAddress(a) == LockAddress(b) <==> a == b
  {
  }

  /** A lock address is never anybody's wallet. */
  lemma LockAddressIsNoWallet(owner: Pubkey, key: Pubkey)
    ensures LockAddress(owner) != Wallet(key)
  {
  }

  const U64Limit: int := 0x1_0000_0000_0000_0000
  const I64Min: int := -0x8000_0000_0000_0000
  const I64Limit: int := 0x8000_0000_0000_0000

  /** Rust `u64`. */
  type U64 = x: int | 0 <= x < U64Limit

  /** Rust `i64`, the width of a Unix timestamp on the ledger's clock. */
  type I64 = x: int | I64Min <= x < I64Limit
}
