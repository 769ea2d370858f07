/** Concurrent Sends from one address, as a machine over their atomic steps.

    A step is one critical section of the nonce manager, or one answer of the adapter. Between
    two steps of a Send any other Send may take any number of steps. */
module SendProtocol {
  import opened Prelude
  import opened Chains
  import opened Nonces

  /** The call a Send is about to make with the nonce it holds. */
  datatype Stage = Fees | Gas | Sign | Submit

  datatype Phase =
    | Holding(nonce: nat, stage: Stage)
    | Releasing(nonce: nat, resync: bool)  // the call failed, Release is still to come
    | Resyncing                            // released after a nonce error
    | Fetched(value: nat)                  // Resync has read the chain and not yet written
    | Ended
  {
    predicate Holds() {
      Holding? || Releasing?
    }
  }

  /** `first`, `accepted` and `gaps` are history: the first nonce fetched, the nonces this
      program has broadcast, and the ones given up without being broadcast or reissued. */
  datatype Machine = Machine(
    next: Option<nat>,
    chain: Chain,
    sends: map<nat, Phase>,
    first: Option<nat>,
    accepted: set<nat>,
    gaps: set<nat>)

  datatype Event =
    | Allocate(id: nat)
    | AllocateFails(id: nat)
    | Proceed(id: nat, gasKnown: bool)
    | Fail(id: nat, nonceError: bool)
    | Discard(id: nat)                     // a dry run stops before the submission
    | Accept(id: nat)
    | Release(id: nat)
    | ResyncRead(id: nat)
    | ResyncReadFails(id: nat)
    | ResyncWrite(id: nat)
    | External(nonce: nat)                 // someone else's transaction from this address

  function Init(chain: Chain): Machine {
    Machine(None, chain, map[], None, {}, {})
  }

  predicate HoldingAt(m: Machine, id: nat) {
    id in m.sends && m.sends[id].Holding?
  }

  predicate Enabled(m: Machine, e: Event) {
    match e
    case Allocate(id) => id !in m.sends
    case AllocateFails(id) => id !in m.sends && m.next.None?
    case Proceed(id, _) => HoldingAt(m, id) && m.sends[id].stage != Submit
    case Fail(id, nonceError) => HoldingAt(m, id) && (nonceError ==> m.sends[id].stage == Submit)
    case Discard(id) => HoldingAt(m, id) && m.sends[id].stage == Submit
    case Accept(id) => HoldingAt(m, id) && m.sends[id].stage == Submit
    case Release(id) => id in m.sends && m.sends[id].Releasing?
    case ResyncRead(id) => id in m.sends && m.sends[id].Resyncing?
    case ResyncReadFails(id) => id in m.sends && m.sends[id].Resyncing?
    case ResyncWrite(id) => id in m.sends && m.sends[id].Fetched?
    case External(_) => true
  }

  function StageAfter(stage: Stage, gasKnown: bool): Stage {
    match stage
    case Fees => if gasKnown then Sign else Gas
    case Gas => Sign
    case Sign => Submit
    case Submit => Submit
  }

  function Step(m: Machine, e: Event): Machine
    requires Enabled(m, e)
  {
    match e
    case Allocate(id) =>
      var n := Allocated(m.next, Pending(m.chain));
      m.(next := Some(n + 1),
         first := if m.next.None? then Some(n) else m.first,
         sends := m.sends[id := Holding(n, Fees)])
    case AllocateFails(id) => m.(sends := m.sends[id := Ended])
    case Proceed(id, gasKnown) =>
      var p := m.sends[id];
      m.(sends := m.sends[id := Holding(p.nonce, StageAfter(p.stage, gasKnown))])
    case Fail(id, nonceError) => m.(sends := m.sends[id := Releasing(m.sends[id].nonce, nonceError)])
    case Discard(id) => m.(sends := m.sends[id := Releasing(m.sends[id].nonce, false)])
    case Accept(id) =>
      var n := m.sends[id].nonce;
      m.(chain := Use(m.chain, n), accepted := m.accepted + {n}, sends := m.sends[id := Ended])
    case Release(id) =>
      var n := m.sends[id].nonce;
      var next := AfterRelease(m.next, n);
      m.(next := next,
         gaps := if next == m.next then m.gaps + {n} else m.gaps,
         sends := m.sends[id := if m.sends[id].resync then Resyncing else Ended])
    case ResyncRead(id) => m.(sends := m.sends[id := Fetched(Pending(m.chain))])
    case ResyncReadFails(id) => m.(sends := m.sends[id := Ended])
    case ResyncWrite(id) =>
      var v := m.sends[id].value;
      m.(next := Some(v), gaps := GapsAfterWrite(m, v), sends := m.sends[id := Ended])
    case External(n) => m.(chain := Use(m.chain, n))
  }

  /** Writing above the tracked value abandons the nonces skipped; writing below it makes the
      abandoned nonces from there on available again. */
  function GapsAfterWrite(m: Machine, v: nat): set<nat> {
    if m.next.Some? then m.gaps + Span(m.next.value, v) - Span(v, m.next.value) else m.gaps
  }

  predicate Legal(m: Machine, es: seq<Event>)
    decreases |es|
  {
    es == [] || (Enabled(m, es[0]) && Legal(Step(m, es[0]), es[1..]))
  }

  function Run(m: Machine, es: seq<Event>): Machine
    requires Legal(m, es)
    decreases |es|
  {
    if es == [] then m else Run(Step(m, es[0]), es[1..])
  }

  // ----- The invariant ---------------------------------------------------------------------

  function InFlight(m: Machine): set<nat> {
    set id | id in m.sends && m.sends[id].Holds() :: m.sends[id].nonce
  }

  /** No nonce is held by two Sends, and no nonce already broadcast is held by any. */
  ghost predicate Unique(m: Machine) {
    && (forall i, j :: i in m.sends && j in m.sends && i != j && m.sends[i].Holds() && m.sends[j].Holds()
          ==> m.sends[i].nonce != m.sends[j].nonce)
    && (forall i :: i in m.sends && m.sends[i].Holds() ==> m.sends[i].nonce !in m.accepted)
  }

  /** Every nonce from the first one fetched up to the next one to issue is in exactly one of
      three places, and no other nonce is in any of them. */
  ghost predicate Partitioned(m: Machine) {
    match m.next
    case None => m.first.None? && InFlight(m) == m.accepted == m.gaps == {}
    case Some(next) =>
      && m.first.Some? && m.first.value <= next
      && Span(m.first.value, next) == InFlight(m) + m.accepted + m.gaps
      && InFlight(m) !! m.accepted !! m.gaps
  }

  /** What Resync has read is never below the first nonce fetched. */
  ghost predicate ReadsAboveFirst(m: Machine) {
    && (m.first.Some? ==> m.first.value <= Pending(m.chain))
    && (forall id :: id in m.sends && (m.sends[id].Fetched? || m.sends[id].Resyncing?) ==> m.first.Some?)
    && (forall id :: id in m.sends && m.sends[id].Fetched? ==> m.first.value <= m.sends[id].value)
  }

  ghost predicate Inv(m: Machine) {
    Unique(m) && Partitioned(m) && ReadsAboveFirst(m)
  }

  /** The value about to be written lies above every nonce in flight or broadcast. */
  ghost predicate SafeValue(m: Machine, v: nat) {
    forall k :: k in InFlight(m) || k in m.accepted ==> k < v
  }

  ghost predicate SafeStep(m: Machine, e: Event)
    requires Enabled(m, e)
  {
    e.ResyncWrite? ==> SafeValue(m, m.sends[e.id].value)
  }

  ghost predicate SafeRun(m: Machine, es: seq<Event>)
    requires Legal(m, es)
    decreases |es|
  {
    es == [] || (SafeStep(m, es[0]) && SafeRun(Step(m, es[0]), es[1..]))
  }

  // ----- How a step moves the set of nonces in flight ---------------------------------------

  lemma InFlightHas(m: Machine, id: nat)
    requires id in m.sends && m.sends[id].Holds()
    ensures m.sends[id].nonce in InFlight(m)
  {
  }

  lemma InFlightGains(m: Machine, m': Machine, id: nat, p: Phase)
    requires m'.sends == m.sends[id := p] && p.Holds()
    requires id !in m.sends || (m.sends[id].Holds() && m.sends[id].nonce == p.nonce)
    ensures InFlight(m') == InFlight(m) + {p.nonce}
  {
    InFlightHas(m', id);
    forall k | k in InFlight(m) ensures k in InFlight(m') {
      var i :| i in m.sends && m.sends[i].Holds() && m.sends[i].nonce == k;
      assert i in m'.sends && m'.sends[i].Holds() && m'.sends[i].nonce == k;
    }
  }

  lemma InFlightLoses(m: Machine, m': Machine, id: nat, p: Phase)
    requires Unique(m)
    requires id in m.sends && m.sends[id].Holds()
    requires m'.sends == m.sends[id := p] && !p.Holds()
    ensures m.sends[id].nonce in InFlight(m)
    ensures InFlight(m') == InFlight(m) - {m.sends[id].nonce}
  {
    InFlightHas(m, id);
    forall k | k in InFlight(m) && k != m.sends[id].nonce ensures k in InFlight(m') {
      var i :| i in m.sends && m.sends[i].Holds() && m.sends[i].nonce == k;
      assert i in m'.sends && m'.sends[i].Holds() && m'.sends[i].nonce == k;
    }
  }

  lemma InFlightSame(m: Machine, m': Machine, id: nat, p: Phase)
    requires m'.sends == m.sends[id := p] && !p.Holds()
    requires id in m.sends ==> !m.sends[id].Holds()
    ensures InFlight(m') == InFlight(m)
  {
    forall k | k in InFlight(m) ensures k in InFlight(m') {
      var i :| i in m.sends && m.sends[i].Holds() && m.sends[i].nonce == k;
      assert i in m'.sends && m'.sends[i].Holds() && m'.sends[i].nonce == k;
    }
  }

  // ----- Every safe step keeps the invariant -------------------------------------------------

  lemma AllocateKeeps(m: Machine, id: nat)
    requires Inv(m) && Enabled(m, Allocate(id))
    ensures Inv(Step(m, Allocate(id)))
  {
    var m' := Step(m, Allocate(id));
    var n := Allocated(m.next, Pending(m.chain));
    InFlightGains(m, m', id, Holding(n, Fees));
    assert Span(m'.first.value, n + 1) == Span(m'.first.value, n) + {n};
    if m.next.None? {
      assert Span(n, n) == {};
    }
    assert n !in Span(m'.first.value, n);
    forall i | i in m.sends && m.sends[i].Holds() ensures m.sends[i].nonce != n {
      InFlightHas(m, i);
    }
  }

  lemma ReleaseKeeps(m: Machine, id: nat)
    requires Inv(m) && Enabled(m, Release(id))
    ensures Inv(Step(m, Release(id)))
  {
    var m' := Step(m, Release(id));
    var n := m.sends[id].nonce;
    InFlightLoses(m, m', id, m'.sends[id]);
    if m'.next != m.next {
      assert n in Span(m.first.value, n + 1);
      assert Span(m.first.value, n) == Span(m.first.value, n + 1) - {n};
    }
  }

  lemma AcceptKeeps(m: Machine, id: nat)
    requires Inv(m) && Enabled(m, Accept(id))
    ensures Inv(Step(m, Accept(id)))
  {
    var m' := Step(m, Accept(id));
    InFlightLoses(m, m', id, Ended);
    PendingMonotone(m.chain, m.sends[id].nonce);
  }

  lemma ResyncWriteKeeps(m: Machine, id: nat)
    requires Inv(m) && Enabled(m, ResyncWrite(id)) && SafeStep(m, ResyncWrite(id))
    ensures Inv(Step(m, ResyncWrite(id)))
  {
    var m' := Step(m, ResyncWrite(id));
    var first, next, v := m.first.value, m.next.value, m.sends[id].value;
    InFlightSame(m, m', id, Ended);
    assert forall k :: k in Span(first, v) <==> k in Span(first, next) + Span(next, v) - Span(v, next);
    assert forall k :: k in InFlight(m) + m.accepted ==> k !in Span(v, next) && k !in Span(next, v) by {
      assert forall k :: k in InFlight(m) + m.accepted ==> k in Span(first, next);
    }
    assert Span(first, v) == InFlight(m') + m'.accepted + m'.gaps;
  }

  lemma QuietKeeps(m: Machine, e: Event)
    requires Inv(m) && Enabled(m, e)
    requires !e.Allocate? && !e.Release? && !e.Accept? && !e.ResyncWrite?
    ensures Inv(Step(m, e))
  {
    var m' := Step(m, e);
    if e.External? {
      PendingMonotone(m.chain, e.nonce);
      assert InFlight(m') == InFlight(m);
    } else if e.Proceed? || e.Fail? || e.Discard? {
      InFlightHas(m, e.id);
      InFlightGains(m, m', e.id, m'.sends[e.id]);
    } else {
      InFlightSame(m, m', e.id, m'.sends[e.id]);
    }
  }

  lemma StepKeeps(m: Machine, e: Event)
    requires Inv(m) && Enabled(m, e) && SafeStep(m, e)
    ensures Inv(Step(m, e))
  {
    match e
    case Allocate(id) => AllocateKeeps(m, id);
    case Release(id) => ReleaseKeeps(m, id);
    case Accept(id) => AcceptKeeps(m, id);
    case ResyncWrite(id) => ResyncWriteKeeps(m, id);
    case _ => QuietKeeps(m, e);
  }

  lemma {:induction false} RunKeeps(m: Machine, es: seq<Event>)
    requires Inv(m) && Legal(m, es) && SafeRun(m, es)
    ensures Inv(Run(m, es))
    decreases |es|
  {
    if es != [] {
      StepKeeps(m, es[0]);
      RunKeeps(Step(m, es[0]), es[1..]);
    }
  }

  // ----- Main results over runs ----------------------------------------------------------------

  predicate NoResyncWrite(es: seq<Event>) {
    forall e :: e in es ==> !e.ResyncWrite?
  }

  lemma {:induction false} WithoutResyncIsSafe(m: Machine, es: seq<Event>)
    requires Legal(m, es) && NoResyncWrite(es)
    ensures SafeRun(m, es)
    decreases |es|
  {
    if es != [] {
      WithoutResyncIsSafe(Step(m, es[0]), es[1..]);
    }
  }

  /** However the Sends of one address interleave and fail, and whoever else uses the address:
      without Resync the issued nonces split into in flight, broadcast and abandoned, and no
      nonce is held twice or issued again after its broadcast. */
  lemma InterleavedSendsPartition(chain: Chain, es: seq<Event>)
    requires Legal(Init(chain), es) && NoResyncWrite(es)
    ensures Partitioned(Run(Init(chain), es)) && Unique(Run(Init(chain), es))
  {
    WithoutResyncIsSafe(Init(chain), es);
    RunKeeps(Init(chain), es);
  }

  /** The same with Resync, as long as each value it writes lies above all nonces in flight or
      broadcast at that moment. */
  lemma SafeResyncsPartition(chain: Chain, es: seq<Event>)
    requires Legal(Init(chain), es) && SafeRun(Init(chain), es)
    ensures Partitioned(Run(Init(chain), es)) && Unique(Run(Init(chain), es))
  {
    RunKeeps(Init(chain), es);
  }

  /** A nonce about to be issued was never broadcast and is held by nobody. */
  lemma NextNonceIsFresh(chain: Chain, es: seq<Event>, id: nat)
    requires Legal(Init(chain), es) && SafeRun(Init(chain), es)
    requires Enabled(Run(Init(chain), es), Allocate(id))
    ensures var m := Run(Init(chain), es);
      var n := Step(m, Allocate(id)).sends[id].nonce;
      n !in m.accepted && n !in InFlight(m)
  {
    RunKeeps(Init(chain), es);
    var m := Run(Init(chain), es);
    if m.next.Some? {
      assert m.next.value !in Span(m.first.value, m.next.value);
    }
  }

  function Broadcasts(es: seq<Event>): nat {
    if es == [] then 0 else (if es[0].Accept? then 1 else 0) + Broadcasts(es[1..])
  }

  /** Every broadcast of a safe run carries a nonce of its own. */
  lemma {:induction false} BroadcastsAreDistinct(m: Machine, es: seq<Event>)
    requires Inv(m) && Legal(m, es) && SafeRun(m, es)
    ensures |Run(m, es).accepted| == |m.accepted| + Broadcasts(es)
    decreases |es|
  {
    if es != [] {
      StepKeeps(m, es[0]);
      BroadcastsAreDistinct(Step(m, es[0]), es[1..]);
    }
  }

  // ----- Resync: exactly when it is safe ---------------------------------------------------------

  /** k new Sends, each of which gets as far as its nonce. */
  function Allocations(id: nat, k: nat): seq<Event>
    decreases k
  {
    if k == 0 then [] else [Allocate(id)] + Allocations(id + 1, k - 1)
  }

  lemma {:induction false} AllocationsCount(m: Machine, id: nat, k: nat)
    requires m.next.Some? && forall i :: i in m.sends ==> i < id
    ensures NoResyncWrite(Allocations(id, k)) && Legal(m, Allocations(id, k))
    ensures var m' := Run(m, Allocations(id, k));
      && m'.accepted == m.accepted
      && (forall i :: i in m.sends ==> i in m'.sends && m'.sends[i] == m.sends[i])
      && (k > 0 ==> id + k - 1 in m'.sends && m'.sends[id + k - 1] == Holding(m.next.value + k - 1, Fees))
    decreases k
  {
    if k > 0 {
      assert Allocations(id, k)[1..] == Allocations(id + 1, k - 1);
      var m1 := RunOne(m, Allocations(id, k));
      AllocationsCount(m1, id + 1, k - 1);
      assert m1.sends[id] == Holding(m.next.value, Fees);
    }
  }

  lemma {:induction false} FreshId(ids: set<nat>) returns (id: nat)
    ensures forall i :: i in ids ==> i < id
    decreases ids
  {
    if ids == {} {
      id := 0;
    } else {
      var i :| i in ids;
      var below := FreshId(ids - {i});
      id := Max(below, i + 1);
      assert forall j :: j in ids ==> j == i || j in ids - {i};
    }
  }

  /** Further Sends starting are all it takes for any nonce from the written value on to be issued. */
  lemma WriteReissues(m: Machine, id: nat, k: nat) returns (es: seq<Event>, newId: nat)
    requires Enabled(m, ResyncWrite(id)) && m.sends[id].value <= k
    ensures newId !in m.sends && NoResyncWrite(es) && Legal(Step(m, ResyncWrite(id)), es)
    ensures var m' := Run(Step(m, ResyncWrite(id)), es);
      && newId in m'.sends && m'.sends[newId] == Holding(k, Fees)
      && m'.accepted == m.accepted
      && (forall i :: i in m.sends && i != id ==> i in m'.sends && m'.sends[i] == m.sends[i])
  {
    var v := m.sends[id].value;
    var m1 := Step(m, ResyncWrite(id));
    var unusedId := FreshId(m1.sends.Keys);
    es, newId := Allocations(unusedId, k - v + 1), unusedId + k - v;
    AllocationsCount(m1, unusedId, k - v + 1);
  }

  /** A write at or below a nonce in flight or broadcast leads to that nonce being issued a
      second time, by nothing but further Sends starting. */
  lemma UnsafeWriteCollides(m: Machine, id: nat) returns (es: seq<Event>)
    requires Enabled(m, ResyncWrite(id)) && !SafeValue(m, m.sends[id].value)
    ensures NoResyncWrite(es) && Legal(Step(m, ResyncWrite(id)), es)
    ensures !Unique(Run(Step(m, ResyncWrite(id)), es))
  {
    var k :| (k in InFlight(m) || k in m.accepted) && m.sends[id].value <= k;
    var newId;
    es, newId := WriteReissues(m, id, k);
    if k in InFlight(m) {
      var i :| i in m.sends && m.sends[i].Holds() && m.sends[i].nonce == k;
      assert i != id && i != newId;
    }
  }

  /** A Resync write keeps nonces unique, whatever happens next, exactly when its value lies
      above every nonce in flight or broadcast. */
  lemma ResyncSafeIff(m: Machine, id: nat)
    requires Inv(m) && Enabled(m, ResyncWrite(id))
    ensures SafeValue(m, m.sends[id].value) <==>
      forall es :: Legal(Step(m, ResyncWrite(id)), es) && NoResyncWrite(es)
        ==> Unique(Run(Step(m, ResyncWrite(id)), es))
  {
    var m1 := Step(m, ResyncWrite(id));
    if SafeValue(m, m.sends[id].value) {
      ResyncWriteKeeps(m, id);
      forall es | Legal(m1, es) && NoResyncWrite(es) ensures Unique(Run(m1, es)) {
        WithoutResyncIsSafe(m1, es);
        RunKeeps(m1, es);
      }
    } else {
      var es := UnsafeWriteCollides(m, id);
    }
  }

  /** The unsafe case is reached by an ordinary run. Sends 0 and 1 hold nonces 0 and 1, someone
      else's transaction takes nonce 0, Send 0 fails with a nonce error and resyncs to 1: the
      next Send is given nonce 1, which Send 1 still holds. */
  const REWIND_START: seq<Event> :=
    [Allocate(0), Allocate(1), External(0), Proceed(0, true), Proceed(0, true)]

  const REWIND_END: seq<Event> :=
    [Fail(0, true), Release(0), ResyncRead(0), ResyncWrite(0), Allocate(2)]

  lemma ResyncCanRewind()
    ensures Legal(Init(Chain(0, {})), REWIND_START + REWIND_END)
    ensures var m := Run(Init(Chain(0, {})), REWIND_START + REWIND_END);
      && 1 in m.sends && m.sends[1] == Holding(1, Fees)
      && 2 in m.sends && m.sends[2] == Holding(1, Fees)
  {
    var m := RewindStarts();
    RewindEnds(m);
    RunConcat(Init(Chain(0, {})), REWIND_START, REWIND_END);
  }

  lemma RewindStarts() returns (m: Machine)
    ensures Legal(Init(Chain(0, {})), REWIND_START) && m == Run(Init(Chain(0, {})), REWIND_START)
    ensures m == Machine(Some(2), Chain(0, {0}), map[0 := Holding(0, Submit), 1 := Holding(1, Fees)], Some(0), {}, {})
  {
    var m0 := Init(Chain(0, {}));
    PendingIs(m0.chain, 0);
    var m1 := RunOne(m0, REWIND_START);
    var m2 := RunOne(m1, REWIND_START[1..]);
    var m3 := RunOne(m2, REWIND_START[2..]);
    var m4 := RunOne(m3, REWIND_START[3..]);
    m := RunOne(m4, REWIND_START[4..]);
  }

  lemma RewindEnds(m: Machine)
    requires m == Machine(Some(2), Chain(0, {0}), map[0 := Holding(0, Submit), 1 := Holding(1, Fees)], Some(0), {}, {})
    ensures Legal(m, REWIND_END)
    ensures var m' := Run(m, REWIND_END);
      && 1 in m'.sends && m'.sends[1] == Holding(1, Fees)
      && 2 in m'.sends && m'.sends[2] == Holding(1, Fees)
  {
    PendingIs(m.chain, 1);
    var m1 := RunOne(m, REWIND_END);
    var m2 := RunOne(m1, REWIND_END[1..]);
    var m3 := RunOne(m2, REWIND_END[2..]);
    var m4 := RunOne(m3, REWIND_END[3..]);
    var m5 := RunOne(m4, REWIND_END[4..]);
  }

  lemma RunOne(m: Machine, es: seq<Event>) returns (m': Machine)
    requires es != [] && Enabled(m, es[0])
    ensures m' == Step(m, es[0])
    ensures Legal(m', es[1..]) ==> Legal(m, es) && Run(m, es) == Run(m', es[1..])
  {
    m' := Step(m, es[0]);
  }

  lemma {:induction false} RunConcat(m: Machine, a: seq<Event>, b: seq<Event>)
    requires Legal(m, a) && Legal(Run(m, a), b)
    ensures Legal(m, a + b) && Run(m, a + b) == Run(Run(m, a), b)
    decreases |a|
  {
    if a == [] {
      assert a + b == b;
    } else {
      assert (a + b)[1..] == a[1..] + b;
      RunConcat(Step(m, a[0]), a[1..], b);
    }
  }

  predicate NoExternal(es: seq<Event>) {
    forall e :: e in es ==> !e.External?
  }

  /** While nobody else uses the address, the chain knows exactly the program's broadcasts. */
  ghost predicate OwnChain(m: Machine, base: nat) {
    && m.chain == Chain(base, m.accepted)
    && (m.first.Some? ==> m.first.value == base)
    && (m.first.None? ==> m.accepted == {})
  }

  lemma {:induction false} OwnChainKept(m: Machine, base: nat, es: seq<Event>)
    requires Inv(m) && OwnChain(m, base)
    requires Legal(m, es) && SafeRun(m, es) && NoExternal(es)
    ensures OwnChain(Run(m, es), base)
    decreases |es|
  {
    if es != [] {
      if m.next.None? {
        PendingIs(m.chain, base);
      }
      StepKeeps(m, es[0]);
      OwnChainKept(Step(m, es[0]), base, es[1..]);
    }
  }

  /** With nobody else on the address, Resync reads the value that is tracked already exactly when
      nothing is in flight and nothing was abandoned; otherwise it reads a lower one. */
  lemma ResyncIsNoOpIff(base: nat, es: seq<Event>)
    requires Legal(Init(Chain(base, {})), es) && SafeRun(Init(Chain(base, {})), es) && NoExternal(es)
    requires Run(Init(Chain(base, {})), es).next.Some?
    ensures var m := Run(Init(Chain(base, {})), es);
      && Pending(m.chain) <= m.next.value
      && (Pending(m.chain) == m.next.value <==> InFlight(m) == {} && m.gaps == {})
  {
    var m0 := Init(Chain(base, {}));
    var m := Run(m0, es);
    RunKeeps(m0, es);
    OwnChainKept(m0, base, es);
    var next := m.next.value;
    assert next !in Span(base, next);
    if InFlight(m) + m.gaps != {} {
      var k :| k in InFlight(m) + m.gaps;
      assert k in Span(base, next) && k !in m.accepted;
      assert !Taken(m.chain, k);
    } else {
      assert m.accepted == Span(base, next);
      PendingIs(m.chain, next);
    }
    assert !Taken(m.chain, next);
  }

  /** So no Send ever holds a nonce that the chain has taken: a node that refuses only used nonces
      refuses none of them, however the Sends interleave. */
  lemma HeldNoncesAreUntaken(base: nat, es: seq<Event>, id: nat)
    requires Legal(Init(Chain(base, {})), es) && SafeRun(Init(Chain(base, {})), es) && NoExternal(es)
    ensures var m := Run(Init(Chain(base, {})), es);
      id in m.sends && m.sends[id].Holds() ==> !Taken(m.chain, m.sends[id].nonce)
  {
    var m0 := Init(Chain(base, {}));
    RunKeeps(m0, es);
    OwnChainKept(m0, base, es);
    var m := Run(m0, es);
    if id in m.sends && m.sends[id].Holds() {
      InFlightHas(m, id);
      assert m.sends[id].nonce in Span(base, m.next.value);
    }
  }

  // ----- Gaps: what Resync can repair ----------------------------------------------------------------

  /** The steps of other Sends never fill a gap, and never withdraw a broadcast. */
  lemma {:induction false} GapsOnlyGrow(m: Machine, es: seq<Event>)
    requires Legal(m, es)
    ensures m.accepted <= Run(m, es).accepted
    ensures NoResyncWrite(es) ==> m.gaps <= Run(m, es).gaps
    decreases |es|
  {
    if es != [] {
      GapsOnlyGrow(Step(m, es[0]), es[1..]);
    }
  }

  /** With nobody else on the address, what Resync reads is the least nonce in flight or abandoned,
      if there is one. */
  lemma ResyncReadsLeastOpen(base: nat, es: seq<Event>)
    requires Legal(Init(Chain(base, {})), es) && SafeRun(Init(Chain(base, {})), es) && NoExternal(es)
    requires Run(Init(Chain(base, {})), es).next.Some?
    ensures var m := Run(Init(Chain(base, {})), es);
      var open := InFlight(m) + m.gaps;
      && (open != {} ==> Pending(m.chain) in open)
      && (forall k :: k in open ==> Pending(m.chain) <= k)
  {
    var m0 := Init(Chain(base, {}));
    var m := Run(m0, es);
    RunKeeps(m0, es);
    OwnChainKept(m0, base, es);
    ResyncIsNoOpIff(base, es);
    var p := Pending(m.chain);
    forall k | k in InFlight(m) + m.gaps ensures p <= k {
      assert k in Span(base, m.next.value) && k !in m.accepted;
      assert !Taken(m.chain, k);
    }
    if InFlight(m) + m.gaps != {} {
      assert p in Span(base, m.next.value) && p !in m.accepted;
    }
  }

  /** nonce.go:50-52 leaves the gap of an out-of-order release for Resync to fix. Written at once,
      the value Resync reads is safe exactly when nothing is in flight and every broadcast lies
      below every gap: a gap below a broadcast, the very case described there, it cannot fix. */
  lemma ResyncRepairsIff(base: nat, es: seq<Event>)
    requires Legal(Init(Chain(base, {})), es) && SafeRun(Init(Chain(base, {})), es) && NoExternal(es)
    requires Run(Init(Chain(base, {})), es).next.Some?
    ensures var m := Run(Init(Chain(base, {})), es);
      SafeValue(m, Pending(m.chain)) <==>
        InFlight(m) == {} && forall g, a :: g in m.gaps && a in m.accepted ==> a < g
  {
    var m := Run(Init(Chain(base, {})), es);
    RunKeeps(Init(Chain(base, {})), es);
    ResyncReadsLeastOpen(base, es);
    ResyncIsNoOpIff(base, es);
    if InFlight(m) == {} && m.gaps == {} {
      assert forall k :: k in m.accepted ==> k in Span(m.first.value, m.next.value);
    }
  }

  lemma {:induction false} ReadValueStays(m: Machine, es: seq<Event>, id: nat)
    requires Legal(m, es) && id in m.sends && (m.sends[id].Fetched? || m.sends[id].Ended?)
    ensures var m' := Run(m, es);
      id in m'.sends && (m'.sends[id] == m.sends[id] || m'.sends[id].Ended?)
    decreases |es|
  {
    if es != [] {
      ReadValueStays(Step(m, es[0]), es[1..], id);
    }
  }

  /** Nor does waiting help: once Resync has read the chain while it lacks a nonce below a broadcast,
      its write, whenever it comes, leads to that broadcast's nonce being issued again. */
  lemma RefillReissues(m: Machine, id: nat, gap: nat, accepted: nat, later: seq<Event>)
    returns (es: seq<Event>, newId: nat)
    requires !Taken(m.chain, gap) && accepted in m.accepted && gap < accepted
    requires Enabled(m, ResyncRead(id)) && Legal(Step(m, ResyncRead(id)), later)
    requires Enabled(Run(Step(m, ResyncRead(id)), later), ResyncWrite(id))
    ensures var written := Step(Run(Step(m, ResyncRead(id)), later), ResyncWrite(id));
      && newId !in written.sends && NoResyncWrite(es) && Legal(written, es)
      && newId in Run(written, es).sends && Run(written, es).sends[newId] == Holding(accepted, Fees)
      && accepted in Run(written, es).accepted
  {
    var read := Step(m, ResyncRead(id));
    var m' := Run(read, later);
    ReadValueStays(read, later, id);
    GapsOnlyGrow(read, later);
    assert m'.sends[id].value <= gap;
    es, newId := WriteReissues(m', id, accepted);
  }
}
