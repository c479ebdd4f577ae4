/** The lamport balances of the ledger and the one primitive the program uses
    on them: moving lamports from one account to another. */
module Ledger {
  import opened Keys

  /** Lamports held by each account; an absent address holds none. */
  type Lamports = map<Address, nat>

  function Balance(l: Lamports, a: Address): nat
  {
    if a in l then l[a] else 0
  }

  /** Moves `n` lamports out of `from` into `to`. The caller has already
      checked that `from` holds at least `n`. */
  function Move(l: Lamports, from: Address, to: Address, n: nat): (r: Lamports)
    requires n <= Balance(l, from)
    ensures from != to ==> Balance(r, from) + n == Balance(l, from)
    ensures from != to ==> Balance(r, to) == Balance(l, to) + n
    ensures from == to ==> Balance(r, from) == Balance(l, from)
    ensures forall a :: a != from && a != to ==> Balance(r, a) == Balance(l, a)
  {
    if from == to then l
    else l[from := Balance(l, from) - n][to := Balance(l, to) + n]
  }

  /** Total lamports held by the accounts in `s`. */
  ghost function SumOver(l: Lamports, s: set<Address>): nat
    decreases s
  {
    if s == {} then 0
    else
      var a :| a in s;
      Balance(l, a) + SumOver(l, s - {a})
  }

  /** Any member of `s` can be split off the sum, not only the one
      `SumOver` happens to pick. */
  lemma {:induction false} SumOverSplit(l: Lamports, s: set<Address>, a: Address)
    requires a in s
    ensures SumOver(l, s) == Balance(l, a) + SumOver(l, s - {a})
    decreases s
  {
    var x :| x in s && SumOver(l, s) == Balance(l, x) + SumOver(l, s - {x});
    if x != a {
      SumOverSplit(l, s - {x}, a);
      SumOverSplit(l, s - {a}, x);
      assert s - {x} - {a} == s - {a} - {x};
    }
  }

  /** Two balance maps that agree on every account of `s` give `s` the same total. */
  lemma {:induction false} SumOverAgree(l: Lamports, l': Lamports, s: set<Address>)
    requires forall a :: a in s ==> Balance(l, a) == Balance(l', a)
    ensures SumOver(l, s) == SumOver(l', s)
    decreases s
  {
    if s != {} {
      var a :| a in s;
      SumOverSplit(l, s, a);
      SumOverSplit(l', s, a);
      SumOverAgree(l, l', s - {a});
    }
  }

  /** A move neither creates nor destroys lamports: every set of accounts that
      contains both ends of the move, or neither end, keeps its total. */
  lemma MoveConserves(l: Lamports, from: Address, to: Address, n: nat, s: set<Address>)
    requires n <= Balance(l, from)
    requires (from in s && to in s) || (from !in s && to !in s)
    ensures SumOver(Move(l, from, to, n), s) == SumOver(l, s)
  {
    var r := Move(l, from, to, n);
    if from != to && from in s {
      SumOverSplit(l, s, from);
      SumOverSplit(r, s, from);
      SumOverSplit(l, s - {from}, to);
      SumOverSplit(r, s - {from}, to);
      SumOverAgree(l, r, s - {from} - {to});
    } else {
      SumOverAgree(l, r, s);
    }
  }
}
