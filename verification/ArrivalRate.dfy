/** internal/load/engine.go, runArrivalRate: iterations started at a rate, capped by a semaphore.

    The scheduler goroutine and the iterations interleave. An iteration leaves in two steps, as
    its deferred calls run: it gives the semaphore back, then it counts down the wait group. */
module ArrivalRate {
  import opened Prelude
  import opened Scenario
  import opened LoadEngine

  const SECOND := 1_000_000_000
  const MILLISECOND := 1_000_000

  function Interval(l: Load): int
    requires l.rate > 0
  {
    var unit := if l.timeUnit <= 0 then SECOND else l.timeUnit;
    if unit / l.rate <= 0 then MILLISECOND else unit / l.rate
  }

  /** An accepted arrival-rate load never divides by a zero rate, its ticker always has a positive
      period, and a whole unit has room for `rate` of them unless the period had to be raised. */
  lemma AcceptedIntervalIsPositive(l: Load)
    requires Accepted(l) && l.kind == "arrival-rate"
    ensures l.rate > 0 && Interval(l) > 0
    ensures var unit := if l.timeUnit <= 0 then 1_000_000_000 else l.timeUnit;
      if l.rate <= unit then l.rate * Interval(l) <= unit < l.rate * (Interval(l) + 1) else Interval(l) == 1_000_000
  {
    var unit := if l.timeUnit <= 0 then SECOND else l.timeUnit;
    if l.rate <= unit {
      PositiveQuotient(unit, l.rate);
    }
  }

  lemma PositiveQuotient(a: int, b: int)
    requires 0 < b <= a
    ensures a / b >= 1 && b * (a / b) <= a < b * (a / b + 1)
  {
  }

  // ----- The machine ---------------------------------------------------------------------------

  /** Where the scheduler is between its own steps: waiting for a tick, or between taking the
      semaphore and counting up the wait group. */
  datatype Scheduler = Waiting | Admitted | Draining | Returned

  /** An iteration is numbered by its place in the order of starting, which fixes its wallet. */
  datatype State = State(
    scheduler: Scheduler,
    sem: nat,
    group: nat,
    running: set<nat>,   // iterations that hold the semaphore
    leaving: set<nat>,   // iterations that gave it back and are still counted in the group
    started: nat,
    dropped: nat,
    ticks: nat)

  datatype Event =
    | Tick              // the ticker fires while waiting
    | Launch            // wg.Add, nextWallet, go
    | GiveBack(id: nat) // the iteration's deferred receive from the semaphore
    | Leave(id: nat)    // the iteration's deferred wg.Done
    | Done              // the context ends
    | Return            // wg.Wait comes back

  const START := State(Waiting, 0, 0, {}, {}, 0, 0, 0)

  predicate Enabled(s: State, e: Event) {
    match e
    case Tick => s.scheduler.Waiting?
    case Launch => s.scheduler.Admitted?
    case GiveBack(id) => id in s.running && s.sem > 0
    case Leave(id) => id in s.leaving && s.group > 0
    case Done => s.scheduler.Waiting?
    case Return => s.scheduler.Draining? && s.group == 0
  }

  function Step(maxVUs: nat, s: State, e: Event): State
    requires Enabled(s, e)
  {
    match e
    case Tick =>
      if s.sem < maxVUs then s.(ticks := s.ticks + 1, sem := s.sem + 1, scheduler := Admitted)
      else s.(ticks := s.ticks + 1, dropped := s.dropped + 1)
    case Launch =>
      s.(group := s.group + 1, running := s.running + {s.started}, started := s.started + 1, scheduler := Waiting)
    case GiveBack(id) =>
      s.(sem := s.sem - 1, running := s.running - {id}, leaving := s.leaving + {id})
    case Leave(id) => s.(group := s.group - 1, leaving := s.leaving - {id})
    case Done => s.(scheduler := Draining)
    case Return => s.(scheduler := Returned)
  }

  predicate Legal(maxVUs: nat, s: State, es: seq<Event>)
    decreases |es|
  {
    es == [] || (Enabled(s, es[0]) && Legal(maxVUs, Step(maxVUs, s, es[0]), es[1..]))
  }

  function Run(maxVUs: nat, s: State, es: seq<Event>): State
    requires Legal(maxVUs, s, es)
    decreases |es|
  {
    if es == [] then s else Run(maxVUs, Step(maxVUs, s, es[0]), es[1..])
  }

  function Pending(s: State): nat {
    if s.scheduler.Admitted? then 1 else 0
  }

  ghost predicate Inv(maxVUs: nat, s: State) {
    && s.sem == |s.running| + Pending(s) <= maxVUs
    && s.group == |s.running| + |s.leaving|
    && s.running !! s.leaving
    && (forall id :: id in s.running || id in s.leaving ==> id < s.started)
    && s.ticks == s.started + s.dropped + Pending(s)
    && (s.scheduler.Returned? ==> s.group == 0)
  }

  lemma GiveBackKeeps(maxVUs: nat, s: State, id: nat)
    requires Inv(maxVUs, s) && Enabled(s, GiveBack(id))
    ensures Inv(maxVUs, Step(maxVUs, s, GiveBack(id)))
  {
    var t := Step(maxVUs, s, GiveBack(id));
    assert s.running == t.running + {id} && t.leaving == s.leaving + {id};
  }

  lemma LeaveKeeps(maxVUs: nat, s: State, id: nat)
    requires Inv(maxVUs, s) && Enabled(s, Leave(id))
    ensures Inv(maxVUs, Step(maxVUs, s, Leave(id)))
  {
    assert s.leaving == Step(maxVUs, s, Leave(id)).leaving + {id};
  }

  lemma StepKeeps(maxVUs: nat, s: State, e: Event)
    requires Inv(maxVUs, s) && Enabled(s, e)
    ensures Inv(maxVUs, Step(maxVUs, s, e))
  {
    match e
    case GiveBack(id) => GiveBackKeeps(maxVUs, s, id);
    case Leave(id) => LeaveKeeps(maxVUs, s, id);
    case _ =>
  }

  lemma {:induction false} RunKeeps(maxVUs: nat, s: State, es: seq<Event>)
    requires Inv(maxVUs, s) && Legal(maxVUs, s, es)
    ensures Inv(maxVUs, Run(maxVUs, s, es))
    decreases |es|
  {
    if es != [] {
      StepKeeps(maxVUs, s, es[0]);
      RunKeeps(maxVUs, Step(maxVUs, s, es[0]), es[1..]);
    }
  }

  /** In every run: never more than MaxVUs iterations in flight, every tick handled is a start or
      a drop, the semaphore never holds more than the wait group counts (but for the one
      admission under way), and both are empty when the scheduler returns. */
  lemma SchedulerIsBounded(maxVUs: nat, es: seq<Event>)
    requires Legal(maxVUs, START, es)
    ensures var s := Run(maxVUs, START, es);
      && |s.running| <= s.sem <= maxVUs
      && s.ticks == s.started + s.dropped + Pending(s)
      && s.sem <= s.group + Pending(s)
      && (s.scheduler.Returned? ==> s.sem == 0 && s.group == 0 && s.ticks == s.started + s.dropped)
  {
    RunKeeps(maxVUs, START, es);
  }

  /** An iteration that is through never waits: the semaphore has its token to give back, and the
      wait group has it counted. */
  lemma LeavingNeverBlocks(maxVUs: nat, es: seq<Event>, id: nat)
    requires Legal(maxVUs, START, es)
    ensures var s := Run(maxVUs, START, es);
      && (id in s.running ==> Enabled(s, GiveBack(id)))
      && (id in s.leaving ==> Enabled(s, Leave(id)))
  {
    RunKeeps(maxVUs, START, es);
  }

  /** A tick is dropped only when MaxVUs iterations are in flight. */
  lemma DropsOnlyWhenFull(maxVUs: nat, es: seq<Event>)
    requires Legal(maxVUs, START, es) && Run(maxVUs, START, es).scheduler.Waiting?
    ensures var s := Run(maxVUs, START, es);
      Step(maxVUs, s, Tick).dropped > s.dropped <==> |s.running| == maxVUs
  {
    RunKeeps(maxVUs, START, es);
  }

  /** Once the context has ended nothing starts any more, and no tick is counted or dropped. */
  lemma {:induction false} NothingStartsAfterDone(maxVUs: nat, s: State, es: seq<Event>)
    requires Enabled(s, Done) && Legal(maxVUs, Step(maxVUs, s, Done), es)
    ensures var t := Run(maxVUs, Step(maxVUs, s, Done), es);
      t.started == s.started && t.ticks == s.ticks && t.dropped == s.dropped
  {
    StaysOver(maxVUs, Step(maxVUs, s, Done), es);
  }

  lemma {:induction false} StaysOver(maxVUs: nat, s: State, es: seq<Event>)
    requires (s.scheduler.Draining? || s.scheduler.Returned?) && Legal(maxVUs, s, es)
    ensures var t := Run(maxVUs, s, es);
      t.started == s.started && t.ticks == s.ticks && t.dropped == s.dropped
    decreases |es|
  {
    if es != [] {
      StaysOver(maxVUs, Step(maxVUs, s, es[0]), es[1..]);
    }
  }

  function LeftToDrain(s: State): nat {
    2 * |s.running| + |s.leaving|
  }

  lemma GiveBackDrains(maxVUs: nat, s: State, id: nat)
    requires Enabled(s, GiveBack(id))
    ensures LeftToDrain(Step(maxVUs, s, GiveBack(id))) < LeftToDrain(s)
  {
    assert s.running == (s.running - {id}) + {id};
    assert |s.leaving + {id}| <= |s.leaving| + 1;
  }

  lemma LeaveDrains(maxVUs: nat, s: State, id: nat)
    requires Enabled(s, Leave(id))
    ensures LeftToDrain(Step(maxVUs, s, Leave(id))) < LeftToDrain(s)
  {
    assert s.leaving == (s.leaving - {id}) + {id};
  }

  lemma DrainStep(maxVUs: nat, s: State) returns (e: Event)
    requires Inv(maxVUs, s) && s.scheduler.Draining?
    ensures Enabled(s, e) && Inv(maxVUs, Step(maxVUs, s, e))
    ensures var t := Step(maxVUs, s, e);
      t.scheduler.Returned? || (t.scheduler.Draining? && LeftToDrain(t) < LeftToDrain(s))
  {
    if s.running != {} {
      var id :| id in s.running;
      e := GiveBack(id);
      GiveBackKeeps(maxVUs, s, id);
      GiveBackDrains(maxVUs, s, id);
    } else if s.leaving != {} {
      var id :| id in s.leaving;
      e := Leave(id);
      LeaveKeeps(maxVUs, s, id);
      LeaveDrains(maxVUs, s, id);
    } else {
      e := Return;
    }
  }

  /** And from then on the iterations in flight can get through, and the scheduler returns. */
  lemma {:induction false} DrainsToReturn(maxVUs: nat, s: State) returns (es: seq<Event>)
    requires Inv(maxVUs, s) && s.scheduler.Draining?
    ensures Legal(maxVUs, s, es) && Run(maxVUs, s, es).scheduler.Returned?
    decreases LeftToDrain(s)
  {
    var e := DrainStep(maxVUs, s);
    var rest := [];
    if Step(maxVUs, s, e).scheduler.Draining? {
      rest := DrainsToReturn(maxVUs, Step(maxVUs, s, e));
    }
    es := [e] + rest;
    assert es[1..] == rest;
    var t := RunOne(maxVUs, s, es);
  }

  // ----- Who shares a wallet ---------------------------------------------------------------------

  /** The n-th iteration started takes wallet n modulo the number of wallets. */
  ghost predicate SharesNoWallet(s: State, wallets: nat)
    requires wallets > 0
  {
    NoneShares(s.running, wallets)
  }

  function Ticks(es: seq<Event>): nat {
    if es == [] then 0 else (if es[0].Tick? then 1 else 0) + Ticks(es[1..])
  }

  lemma {:induction false} TicksCount(maxVUs: nat, s: State, es: seq<Event>)
    requires Legal(maxVUs, s, es)
    ensures Run(maxVUs, s, es).ticks == s.ticks + Ticks(es)
    decreases |es|
  {
    if es != [] {
      TicksCount(maxVUs, Step(maxVUs, s, es[0]), es[1..]);
    }
  }

  lemma {:induction false} RunConcat(maxVUs: nat, s: State, a: seq<Event>, b: seq<Event>)
    requires Legal(maxVUs, s, a) && Legal(maxVUs, Run(maxVUs, s, a), b)
    ensures Legal(maxVUs, s, a + b) && Run(maxVUs, s, a + b) == Run(maxVUs, Run(maxVUs, s, a), b)
    ensures Ticks(a + b) == Ticks(a) + Ticks(b)
    decreases |a|
  {
    if a == [] {
      assert a + b == b;
    } else {
      assert (a + b)[1..] == a[1..] + b;
      RunConcat(maxVUs, Step(maxVUs, s, a[0]), a[1..], b);
    }
  }

  lemma RunOne(maxVUs: nat, s: State, es: seq<Event>) returns (s': State)
    requires es != [] && Enabled(s, es[0])
    ensures s' == Step(maxVUs, s, es[0])
    ensures Legal(maxVUs, s', es[1..]) ==> Legal(maxVUs, s, es) && Run(maxVUs, s, es) == Run(maxVUs, s', es[1..])
    ensures Ticks(es) == Ticks(es[1..]) + if es[0].Tick? then 1 else 0
  {
    s' := Step(maxVUs, s, es[0]);
  }

  /** Iterations first, first+1, ... start and finish one after another while iteration 0 runs. */
  function Laps(first: nat, n: nat): seq<Event>
    decreases n
  {
    if n == 0 then [] else Lap(first) + Laps(first + 1, n - 1)
  }

  function Lap(id: nat): seq<Event> {
    [Tick, Launch, GiveBack(id), Leave(id)]
  }

  function AfterLaps(first: nat): State {
    State(Waiting, 1, 1, {0}, {}, first, 0, first)
  }

  lemma LapRun(maxVUs: nat, id: nat)
    requires maxVUs >= 2 && id >= 1
    ensures Legal(maxVUs, AfterLaps(id), Lap(id)) && Run(maxVUs, AfterLaps(id), Lap(id)) == AfterLaps(id + 1)
    ensures Ticks(Lap(id)) == 1
  {
    var es := Lap(id);
    var s1 := RunOne(maxVUs, AfterLaps(id), es);
    var s2 := RunOne(maxVUs, s1, es[1..]);
    var s3 := RunOne(maxVUs, s2, es[2..]);
    var s4 := RunOne(maxVUs, s3, es[3..]);
    assert s4 == AfterLaps(id + 1);
  }

  lemma {:induction false} LapsRun(maxVUs: nat, first: nat, n: nat)
    requires maxVUs >= 2 && first >= 1
    ensures Legal(maxVUs, AfterLaps(first), Laps(first, n))
    ensures Run(maxVUs, AfterLaps(first), Laps(first, n)) == AfterLaps(first + n)
    ensures Ticks(Laps(first, n)) == n
    decreases n
  {
    if n > 0 {
      LapRun(maxVUs, first);
      LapsRun(maxVUs, first + 1, n - 1);
      RunConcat(maxVUs, AfterLaps(first), Lap(first), Laps(first + 1, n - 1));
    }
  }

  /** With a cap of two, iteration 0 can still hold the first wallet when the round robin comes
      back to it, with only these two in flight. */
  lemma LapSharesWallet(maxVUs: nat, wallets: nat) returns (es: seq<Event>)
    requires maxVUs >= 2 && wallets > 0
    ensures Legal(maxVUs, START, es) && Ticks(es) == wallets + 1
    ensures var s := Run(maxVUs, START, es); s.running == {0, wallets} && !SharesNoWallet(s, wallets)
  {
    var open: seq<Event> := [Tick, Launch];
    assert open[1..] == [Launch] && open[1..][1..] == [];
    var s1 := Step(maxVUs, START, Tick);
    assert Step(maxVUs, s1, Launch) == AfterLaps(1);
    assert Run(maxVUs, START, open) == AfterLaps(1) && Ticks(open) == 1;
    LapsRun(maxVUs, 1, wallets - 1);
    RunConcat(maxVUs, START, open, Laps(1, wallets - 1));
    var t1 := Step(maxVUs, AfterLaps(wallets), Tick);
    var t2 := Step(maxVUs, t1, Launch);
    assert Legal(maxVUs, t1, [Launch]) && Run(maxVUs, t1, open[1..]) == t2;
    assert Legal(maxVUs, AfterLaps(wallets), open);
    assert Run(maxVUs, AfterLaps(wallets), open) == t2;
    RunConcat(maxVUs, START, open + Laps(1, wallets - 1), open);
    es := open + Laps(1, wallets - 1) + open;
    assert 0 in t2.running && wallets in t2.running && 0 % wallets == wallets % wallets;
  }

  /** docs/dsl-reference.md:142-144 asks for as many wallets as max_vus, so that no two
      concurrently active users share one. Here that is not enough at any number: over every run
      of at most n ticks no two iterations in flight share a wallet exactly when the cap is one
      or there are as many wallets as ticks. */
  lemma ArrivalSharesNoWalletIff(maxVUs: nat, wallets: nat, n: nat)
    requires wallets > 0
    ensures (forall es :: Legal(maxVUs, START, es) && Ticks(es) <= n
              ==> SharesNoWallet(Run(maxVUs, START, es), wallets))
       <==> maxVUs <= 1 || n <= wallets
  {
    if maxVUs <= 1 || n <= wallets {
      forall es | Legal(maxVUs, START, es) && Ticks(es) <= n
        ensures SharesNoWallet(Run(maxVUs, START, es), wallets)
      {
        RunKeeps(maxVUs, START, es);
        TicksCount(maxVUs, START, es);
        FewRunningShareNothing(maxVUs, Run(maxVUs, START, es), wallets);
      }
    } else {
      var es := LapSharesWallet(maxVUs, wallets);
    }
  }

  lemma FewRunningShareNothing(maxVUs: nat, s: State, wallets: nat)
    requires wallets > 0 && Inv(maxVUs, s) && (maxVUs <= 1 || s.started <= wallets)
    ensures SharesNoWallet(s, wallets)
  {
    forall a, b | a in s.running && b in s.running && a != b ensures a % wallets != b % wallets {
      if s.started <= wallets {
        ModSmall(a, wallets);
        ModSmall(b, wallets);
      } else {
        SubsetCardinality({a, b}, s.running);
      }
    }
  }

  // ----- The scheduler's own variables ---------------------------------------------------------------

  /** Each method is one step of the scheduler goroutine or of an iteration. */
  class Runner<Wallet> {
    const maxVUs: nat
    const wallets: seq<Wallet>
    ghost var scheduler: Scheduler
    var sem: nat
    var group: nat
    ghost var running: set<nat>
    ghost var leaving: set<nat>
    var walletCursor: nat
    var dropped: nat
    ghost var ticks: nat

    constructor (maxVUs: nat, wallets: seq<Wallet>)
      ensures this.maxVUs == maxVUs && this.wallets == wallets && View() == START
    {
      this.maxVUs, this.wallets := maxVUs, wallets;
      scheduler, sem, group, running, leaving := Waiting, 0, 0, {}, {};
      walletCursor, dropped, ticks := 0, 0, 0;
    }

    ghost function View(): State
      reads this
    {
      State(scheduler, sem, group, running, leaving, walletCursor, dropped, ticks)
    }

    method OnTick()
      requires Enabled(View(), Tick)
      modifies this
      ensures View() == Step(maxVUs, old(View()), Tick)
    {
      ticks := ticks + 1;
      if sem < maxVUs {
        sem := sem + 1;
        scheduler := Admitted;
      } else {
        dropped := dropped + 1;
      }
    }

    /** The iteration started as number k runs with wallet k modulo the number of wallets. */
    method Start() returns (id: nat, w: Wallet)
      requires Enabled(View(), Launch) && wallets != []
      modifies this
      ensures View() == Step(maxVUs, old(View()), Launch)
      ensures id == old(walletCursor) && id in running && w == wallets[id % |wallets|]
    {
      group := group + 1;
      id := walletCursor;
      w := wallets[id % |wallets|];
      walletCursor := walletCursor + 1;
      running := running + {id};
      scheduler := Waiting;
    }

    method OnGiveBack(id: nat)
      requires Enabled(View(), GiveBack(id))
      modifies this
      ensures View() == Step(maxVUs, old(View()), GiveBack(id))
    {
      sem := sem - 1;
      running, leaving := running - {id}, leaving + {id};
    }

    method OnLeave(id: nat)
      requires Enabled(View(), Leave(id))
      modifies this
      ensures View() == Step(maxVUs, old(View()), Leave(id))
    {
      group := group - 1;
      leaving := leaving - {id};
    }
  }
}
