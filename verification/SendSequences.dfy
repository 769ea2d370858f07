/** Sends from one wallet, one after another: what its user relies on when no other user of the
    program holds the same wallet. */
module SendSequences {
  import opened Prelude
  import opened Chains
  import opened Nonces
  import opened TxEngine
  import P = SendProtocol

  /** A Send that gets as far as `fate`, or someone else's transaction from the same address. */
  datatype Turn = Own(fate: Fate, resyncOk: bool) | External(nonce: nat)

  predicate NonceError(t: Turn) {
    t.Own? && t.fate.Refused? && IsNonceError(t.fate.message)
  }

  /** What the node may answer: it accepts no taken nonce, and complains about a nonce only if
      that is not the pending one. Any other refusal and any failure before the submission is
      always possible; a nonce above the pending one may be accepted or refused. */
  ghost predicate Possible(a: Account, t: Turn) {
    t.Own? ==>
      && (t.fate.NoNonce? ==> a.next.None?)
      && (t.fate.Broadcast? ==> !Taken(a.chain, NonceOf(a)))
      && (NonceError(t) ==> NonceOf(a) != Pending(a.chain))
  }

  function After(a: Account, t: Turn): Account {
    match t
    case Own(fate, resyncOk) => Settle(a, fate, resyncOk)
    case External(n) => a.(chain := Use(a.chain, n))
  }

  ghost predicate PossibleRun(a: Account, ts: seq<Turn>)
    decreases |ts|
  {
    ts == [] || (Possible(a, ts[0]) && PossibleRun(After(a, ts[0]), ts[1..]))
  }

  function AfterAll(a: Account, ts: seq<Turn>): Account
    decreases |ts|
  {
    if ts == [] then a else AfterAll(After(a, ts[0]), ts[1..])
  }

  // ----- Drift ---------------------------------------------------------------------------------

  predicate InStep(a: Account) {
    a.next.None? || a.next.value == Pending(a.chain)
  }

  /** Nonces the node has accepted ahead of a hole. */
  function Queued(c: Chain): set<nat> {
    set n | n in c.used && Pending(c) < n
  }

  function Drift(a: Account): nat {
    (if InStep(a) then 0 else 1) + |Queued(a.chain)|
  }

  function Errors(t: Turn): nat {
    if NonceError(t) then 1 else 0
  }

  /** What can bring the two out of step: someone else's transaction, a Resync that could not
      read the chain, a transaction accepted ahead of a hole. */
  function Disturbance(a: Account, t: Turn): nat {
    match t
    case External(_) => 1
    case Own(fate, resyncOk) =>
      if NonceError(t) && !resyncOk then 1
      else if fate.Broadcast? && NonceOf(a) != Pending(a.chain) then 1
      else 0
  }

  lemma UseQueues(c: Chain, n: nat)
    ensures n != Pending(c) ==> |Queued(Use(c, n))| <= |Queued(c)| + 1
    ensures n == Pending(c) ==> |Queued(Use(c, n))| <= |Queued(c)|
    ensures n == Pending(c) && n + 1 in c.used ==> |Queued(Use(c, n))| < |Queued(c)|
  {
    PendingAfterUse(c, n);
    var d := Use(c, n);
    if n != Pending(c) {
      SubsetCardinality(Queued(d), Queued(c) + {n});
    } else {
      SubsetCardinality(Queued(d), Queued(c));
      if n + 1 in c.used {
        assert n + 1 in Queued(c) && Pending(d) != n + 1;
        assert Queued(d) <= Queued(c) - {n + 1};
        SubsetCardinality(Queued(d), Queued(c) - {n + 1});
      }
    }
  }

  lemma TurnPays(a: Account, t: Turn)
    requires Possible(a, t)
    ensures Errors(t) + Drift(After(a, t)) <= Drift(a) + Disturbance(a, t)
  {
    match t
    case External(n) =>
      PendingAfterUse(a.chain, n);
      UseQueues(a.chain, n);
    case Own(fate, _) =>
      if fate.Broadcast? {
        PendingAfterUse(a.chain, NonceOf(a));
        UseQueues(a.chain, NonceOf(a));
      }
  }

  function TotalErrors(ts: seq<Turn>): nat {
    if ts == [] then 0 else Errors(ts[0]) + TotalErrors(ts[1..])
  }

  function TotalDisturbance(a: Account, ts: seq<Turn>): nat
    decreases |ts|
  {
    if ts == [] then 0 else Disturbance(a, ts[0]) + TotalDisturbance(After(a, ts[0]), ts[1..])
  }

  /** Self-healing over a whole run, from any drift: there are no more nonce errors than there
      were disturbances, counting those the run started with. */
  lemma {:induction false} NonceErrorsAreBounded(a: Account, ts: seq<Turn>)
    requires PossibleRun(a, ts)
    ensures TotalErrors(ts) + Drift(AfterAll(a, ts)) <= Drift(a) + TotalDisturbance(a, ts)
    decreases |ts|
  {
    if ts != [] {
      TurnPays(a, ts[0]);
      NonceErrorsAreBounded(After(a, ts[0]), ts[1..]);
    }
  }

  /** Self-healing in one step: however far apart the two were, the Send after a nonce error
      with a successful Resync does not fail with a nonce error. */
  lemma ResyncHeals(a: Account, t: Turn, t': Turn)
    requires Possible(a, t) && NonceError(t) && t.resyncOk
    requires Possible(After(a, t), t')
    ensures InStep(After(a, t)) && !NonceError(t')
  {
  }

  /** Without the Resync the same error is due again: the failed nonce is issued once more. */
  lemma FailedResyncRepeats(a: Account, t: Turn)
    requires Possible(a, t) && NonceError(t) && !t.resyncOk
    ensures NonceOf(After(a, t)) == NonceOf(a) != Pending(After(a, t).chain)
  {
  }

  // ----- One user, no one else --------------------------------------------------------------------

  /** Local and chain nonce agree and the node has nothing queued. */
  predicate Synced(a: Account) {
    InStep(a) && Queued(a.chain) == {}
  }

  function BroadcastNonces(a: Account, ts: seq<Turn>): seq<nat>
    decreases |ts|
  {
    if ts == [] then []
    else (if ts[0].Own? && ts[0].fate.Broadcast? then [NonceOf(a)] else [])
         + BroadcastNonces(After(a, ts[0]), ts[1..])
  }

  /** Over any sequence of Sends, failing anywhere: the nonces broadcast are consecutive from the
      chain's pending nonce on, local and chain nonce agree after every Send, and no Send fails
      with a nonce error. */
  lemma {:induction false} SoleUserIsContiguous(a: Account, ts: seq<Turn>)
    requires Synced(a) && PossibleRun(a, ts) && forall t :: t in ts ==> t.Own?
    ensures var ns := BroadcastNonces(a, ts);
      && ns == Iota(Pending(a.chain), |ns|)
      && Pending(AfterAll(a, ts).chain) == Pending(a.chain) + |ns|
      && Synced(AfterAll(a, ts))
      && (forall t :: t in ts ==> !NonceError(t))
    decreases |ts|
  {
    if ts != [] {
      SoleUserStep(a, ts[0]);
      SoleUserIsContiguous(After(a, ts[0]), ts[1..]);
      assert forall t :: t in ts ==> t == ts[0] || t in ts[1..];
    }
  }

  lemma SoleUserStep(a: Account, t: Turn)
    requires Synced(a) && Possible(a, t) && t.Own?
    ensures !NonceError(t) && NonceOf(a) == Pending(a.chain) && Synced(After(a, t))
    ensures Pending(After(a, t).chain) == Pending(a.chain) + if t.fate.Broadcast? then 1 else 0
  {
    var p := Pending(a.chain);
    if t.fate.Broadcast? {
      assert p + 1 !in Queued(a.chain);
      PendingAfterUse(a.chain, p);
      assert Queued(After(a, t).chain) <= Queued(a.chain);
    }
  }

  // ----- A Send alone is a run of the interleaved machine -------------------------------------------

  /** The atomic steps of one Send that nobody interrupts. */
  function EventsOf(id: nat, fate: Fate, gasKnown: bool, resyncOk: bool): seq<P.Event> {
    match fate
    case NoNonce => [P.AllocateFails(id)]
    case Abandoned(SuggestFees) => [P.Allocate(id)] + GiveUp(id, false)
    case Abandoned(EstimateGas) => [P.Allocate(id), P.Proceed(id, false)] + GiveUp(id, false)
    case Abandoned(_) => ToSign(id, gasKnown) + GiveUp(id, false)
    case DryRun => ToSubmit(id, gasKnown) + [P.Discard(id), P.Release(id)]
    case Broadcast(_, _) => ToSubmit(id, gasKnown) + [P.Accept(id)]
    case Refused(message) =>
      if !IsNonceError(message) then
        ToSubmit(id, gasKnown) + GiveUp(id, false)
      else
        ToSubmit(id, gasKnown) + (GiveUp(id, true) + ResyncEvents(id, resyncOk))
  }

  function ResyncEvents(id: nat, resyncOk: bool): seq<P.Event> {
    if resyncOk then [P.ResyncRead(id), P.ResyncWrite(id)] else [P.ResyncReadFails(id)]
  }

  /** Without a gas limit of the caller's the estimate comes between fees and signature. */
  function ToSign(id: nat, gasKnown: bool): seq<P.Event> {
    [P.Allocate(id), P.Proceed(id, gasKnown)] + if gasKnown then [] else [P.Proceed(id, false)]
  }

  function ToSubmit(id: nat, gasKnown: bool): seq<P.Event> {
    ToSign(id, gasKnown) + [P.Proceed(id, gasKnown)]
  }

  function GiveUp(id: nat, nonceError: bool): seq<P.Event> {
    [P.Fail(id, nonceError), P.Release(id)]
  }

  function AccountOf(m: P.Machine): Account {
    Account(m.next, m.chain)
  }

  lemma ReachesSign(m: P.Machine, id: nat, gasKnown: bool) returns (m': P.Machine)
    requires id !in m.sends
    ensures P.Legal(m, ToSign(id, gasKnown)) && m' == P.Run(m, ToSign(id, gasKnown))
    ensures id in m'.sends && m'.sends[id] == P.Holding(NonceOf(AccountOf(m)), P.Sign)
    ensures m'.next == Some(NonceOf(AccountOf(m)) + 1) && m'.chain == m.chain
  {
    var es := ToSign(id, gasKnown);
    var m1 := P.RunOne(m, es);
    m' := P.RunOne(m1, es[1..]);
    if !gasKnown {
      m' := P.RunOne(m', es[2..]);
    }
  }

  lemma ReachesSubmit(m: P.Machine, id: nat, gasKnown: bool) returns (m': P.Machine)
    requires id !in m.sends
    ensures P.Legal(m, ToSubmit(id, gasKnown)) && m' == P.Run(m, ToSubmit(id, gasKnown))
    ensures id in m'.sends && m'.sends[id] == P.Holding(NonceOf(AccountOf(m)), P.Submit)
    ensures m'.next == Some(NonceOf(AccountOf(m)) + 1) && m'.chain == m.chain
  {
    var m1 := ReachesSign(m, id, gasKnown);
    m' := P.RunOne(m1, [P.Proceed(id, gasKnown)]);
    P.RunConcat(m, ToSign(id, gasKnown), [P.Proceed(id, gasKnown)]);
  }

  lemma GivesUp(m: P.Machine, id: nat, nonceError: bool) returns (m': P.Machine)
    requires P.HoldingAt(m, id) && (nonceError ==> m.sends[id].stage == P.Submit)
    ensures P.Legal(m, GiveUp(id, nonceError)) && m' == P.Run(m, GiveUp(id, nonceError))
    ensures id in m'.sends && m'.sends[id] == if nonceError then P.Resyncing else P.Ended
    ensures m'.next == AfterRelease(m.next, m.sends[id].nonce) && m'.chain == m.chain
  {
    var es := GiveUp(id, nonceError);
    var m1 := P.RunOne(m, es);
    m' := P.RunOne(m1, es[1..]);
  }

  /** Started at any moment, among any other Sends, and left alone from then on, a Send takes the
      machine's steps to exactly the account that the sequential Send computes. */
  lemma SendRefinesProtocol(m: P.Machine, id: nat, fate: Fate, gasKnown: bool, resyncOk: bool)
    requires id !in m.sends
    requires fate.NoNonce? ==> m.next.None?
    ensures P.Legal(m, EventsOf(id, fate, gasKnown, resyncOk))
    ensures var m' := P.Run(m, EventsOf(id, fate, gasKnown, resyncOk));
      AccountOf(m') == Settle(AccountOf(m), fate, resyncOk) && id in m'.sends && m'.sends[id] == P.Ended
  {
    match fate
    case NoNonce =>
      var m1 := P.RunOne(m, EventsOf(id, fate, gasKnown, resyncOk));
    case Abandoned(e) =>
      FailureRefinesProtocol(m, id, e, gasKnown, resyncOk);
    case DryRun =>
      var m1 := ReachesSubmit(m, id, gasKnown);
      var m2 := P.RunOne(m1, [P.Discard(id), P.Release(id)]);
      var m3 := P.RunOne(m2, [P.Discard(id), P.Release(id)][1..]);
      P.RunConcat(m, ToSubmit(id, gasKnown), [P.Discard(id), P.Release(id)]);
    case Broadcast(_, _) =>
      var m1 := ReachesSubmit(m, id, gasKnown);
      var m2 := P.RunOne(m1, [P.Accept(id)]);
      P.RunConcat(m, ToSubmit(id, gasKnown), [P.Accept(id)]);
    case Refused(message) =>
      RefusalRefinesProtocol(m, id, message, gasKnown, resyncOk);
  }

  lemma FailureRefinesProtocol(m: P.Machine, id: nat, e: SendError, gasKnown: bool, resyncOk: bool)
    requires id !in m.sends
    ensures P.Legal(m, EventsOf(id, Abandoned(e), gasKnown, resyncOk))
    ensures var m' := P.Run(m, EventsOf(id, Abandoned(e), gasKnown, resyncOk));
      AccountOf(m') == Settle(AccountOf(m), Abandoned(e), resyncOk) && id in m'.sends && m'.sends[id] == P.Ended
  {
    if e == SuggestFees || e == EstimateGas {
      var es := if e == SuggestFees then [P.Allocate(id)] else [P.Allocate(id), P.Proceed(id, false)];
      var m1 := P.RunOne(m, es);
      if e == EstimateGas {
        m1 := P.RunOne(m1, es[1..]);
      }
      var m2 := GivesUp(m1, id, false);
      P.RunConcat(m, es, GiveUp(id, false));
    } else {
      var m1 := ReachesSign(m, id, gasKnown);
      var m2 := GivesUp(m1, id, false);
      P.RunConcat(m, ToSign(id, gasKnown), GiveUp(id, false));
    }
  }

  lemma RefusalRefinesProtocol(m: P.Machine, id: nat, message: string, gasKnown: bool, resyncOk: bool)
    requires id !in m.sends
    ensures P.Legal(m, EventsOf(id, Refused(message), gasKnown, resyncOk))
    ensures var m' := P.Run(m, EventsOf(id, Refused(message), gasKnown, resyncOk));
      AccountOf(m') == Settle(AccountOf(m), Refused(message), resyncOk) && id in m'.sends && m'.sends[id] == P.Ended
  {
    var m1 := ReachesSubmit(m, id, gasKnown);
    var m2 := GivesUp(m1, id, IsNonceError(message));
    if IsNonceError(message) {
      var tail := ResyncEvents(id, resyncOk);
      var m3 := P.RunOne(m2, tail);
      if resyncOk {
        var m4 := P.RunOne(m3, tail[1..]);
      }
      P.RunConcat(m1, GiveUp(id, true), tail);
      P.RunConcat(m, ToSubmit(id, gasKnown), GiveUp(id, true) + tail);
    } else {
      P.RunConcat(m, ToSubmit(id, gasKnown), GiveUp(id, false));
    }
  }
}
