/** The blockchain as one account sees it, and the nonces a wallet hands out against it.

    The adapter is foreign code. All that the nonce logic can observe of it is which nonces of
    an account are taken, so that is what a Chain records. */
module Chains {
  /** Every nonce below `base` was mined before the run; `used` holds the nonces the node has
      accepted from `base` on, by this program or by anyone else who has the key. */
  datatype Chain = Chain(base: nat, used: set<nat>)

  ghost predicate Taken(c: Chain, n: nat) {
    n < c.base || n in c.used
  }

  function From(n: nat, used: set<nat>): set<nat> {
    set m | m in used && n <= m
  }

  function FirstFree(n: nat, used: set<nat>): (r: nat)
    ensures n <= r && r !in used
    ensures forall m :: n <= m < r ==> m in used
    decreases From(n, used)
  {
    if n in used then
      assert n in From(n, used) && n !in From(n + 1, used);
      FirstFree(n + 1, used)
    else n
  }

  /** What NonceAt answers: the least nonce of the account that is not taken. */
  function Pending(c: Chain): (p: nat)
    ensures !Taken(c, p) && forall m :: 0 <= m < p ==> Taken(c, m)
  {
    FirstFree(c.base, c.used)
  }

  function Use(c: Chain, n: nat): Chain {
    c.(used := c.used + {n})
  }

  lemma PendingIs(c: Chain, p: nat)
    requires !Taken(c, p)
    requires forall m :: 0 <= m < p ==> Taken(c, m)
    ensures Pending(c) == p
  {
  }

  /** A node never gives a nonce back, so its answer never moves down. */
  lemma PendingMonotone(c: Chain, n: nat)
    ensures Pending(c) <= Pending(Use(c, n))
  {
    assert Taken(c, Pending(Use(c, n))) ==> Taken(Use(c, n), Pending(Use(c, n)));
  }

  /** Taking the pending nonce itself moves the answer on; taking another leaves it. */
  lemma PendingAfterUse(c: Chain, n: nat)
    ensures n != Pending(c) ==> Pending(Use(c, n)) == Pending(c)
    ensures n == Pending(c) ==> Pending(Use(c, n)) > n
    ensures n == Pending(c) && n + 1 !in c.used ==> Pending(Use(c, n)) == n + 1
  {
    PendingMonotone(c, n);
    var d := Use(c, n);
    forall m | 0 <= m < Pending(c) ensures Taken(d, m) {
      assert Taken(c, m);
    }
    if n == Pending(c) && n + 1 !in c.used {
      PendingIs(d, n + 1);
    } else if n != Pending(c) {
      PendingIs(d, Pending(c));
    }
  }
}
