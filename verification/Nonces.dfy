/** internal/wallet/nonce.go: the per-address nonce manager. */
module Nonces {
  import opened Prelude

  type Address = nat

  /** The nonce that Next hands out: the tracked one, or the chain's on first use. */
  function Allocated(next: Option<nat>, onChain: nat): nat {
    if next.Some? then next.value else onChain
  }

  /** The tracked value after a Release: rewound only by the most recently issued nonce. */
  function AfterRelease(next: Option<nat>, nonce: nat): Option<nat> {
    if next == Some(nonce + 1) then Some(nonce) else next
  }

  /** A released nonce is the next one issued exactly when it was the last one issued. */
  lemma ReleaseReissues(next: nat, nonce: nat, onChain: nat)
    requires nonce < next
    ensures Allocated(AfterRelease(Some(next), nonce), onChain) == nonce <==> nonce + 1 == next
  {
  }

  /** Releasing anything but the last nonce issued, also one never issued, has no effect. */
  lemma ReleaseIgnoresOthers(next: Option<nat>, nonce: nat)
    ensures AfterRelease(next, nonce) != next <==> next.Some? && nonce + 1 == next.value
  {
  }

  /** Each method body runs under the manager's mutex, so a method is one atomic step. The
      chain's answer, where a method asks for one, is an argument: None is an RPC error. */
  class NonceManager {
    var next: map<Address, nat>

    constructor ()
      ensures next == map[]
    {
      next := map[];
    }

    ghost function Entry(addr: Address): Option<nat>
      reads this
    {
      if addr in next then Some(next[addr]) else None
    }

    method Next(addr: Address, onChain: Option<nat>) returns (nonce: Option<nat>)
      modifies this
      ensures nonce.None? <==> addr !in old(next) && onChain.None?
      ensures nonce.None? ==> next == old(next)
      ensures nonce.Some? ==>
        && next == old(next)[addr := nonce.value + 1]
        && (addr in old(next) ==> nonce.value == old(next)[addr])
        && (addr !in old(next) ==> nonce == onChain)
    {
      var n: nat;
      if addr in next {
        n := next[addr];
      } else {
        if onChain.None? {
          return None;
        }
        n := onChain.value;
      }
      next := next[addr := n + 1];
      return Some(n);
    }

    method Release(addr: Address, nonce: nat)
      modifies this
      ensures Entry(addr) == AfterRelease(old(Entry(addr)), nonce)
      ensures forall a :: a != addr ==> Entry(a) == old(Entry(a))
    {
      if addr in next && nonce + 1 == next[addr] {
        next := next[addr := nonce];
      }
    }

    /** The locked half of Resync: the chain was read before, outside the lock. */
    method Resync(addr: Address, onChain: Option<nat>) returns (ok: bool)
      modifies this
      ensures ok <==> onChain.Some?
      ensures Entry(addr) == if ok then onChain else old(Entry(addr))
      ensures forall a :: a != addr ==> Entry(a) == old(Entry(a))
    {
      if onChain.None? {
        return false;
      }
      next := next[addr := onChain.value];
      return true;
    }
  }
}
