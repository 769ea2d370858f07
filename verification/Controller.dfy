/** internal/distributed/controller.go: the registration barrier and the completion latch.

    A handler's critical sections are atomic steps; between them the handlers of any number of
    requests interleave. A channel that is only ever closed is the number of times it was. */
module Controller {
  import opened Prelude
  import opened Shards
  import opened Scenario
  import opened LoadEngine
  import opened Exclusivity
  import opened Metrics
  import opened Aggregation

  type Wallet = nat

  /** A scenario that parsed, hence validated, and at least one worker: cmd/web3load/cmd_controller.go:32-38. */
  datatype Config = Config(name: string, load: Load, wallets: seq<Wallet>, workers: int)

  predicate Usable(c: Config) {
    Accepted(c.load) && c.workers >= 1
  }

  datatype Assignment = Assignment(shardIndex: nat, shardCount: int, load: Load, wallets: seq<Wallet>)

  datatype State = State(
    registered: seq<string>,
    readyClosed: nat,
    waiting: set<nat>,            // handlers between registration and response
    responses: seq<Assignment>,
    results: map<string, Report>,
    doneWorkers: set<string>,
    allDoneClosed: nat)

  datatype Event =
    | Register(id: string)
    | Respond(index: nat)
    | GiveUp(index: nat)          // the request's context ends before the response
    | Push(id: string, report: Report, done: bool)
    | Malformed                   // a body that does not decode, at either endpoint

  const START := State([], 0, {}, [], map[], {}, 0)

  /** sync.Once around close: only the first call has an effect. */
  function CloseOnce(closed: nat, condition: bool): nat {
    if condition && closed == 0 then closed + 1 else closed
  }

  function AssignmentFor(c: Config, index: nat): Assignment
    requires Usable(c)
  {
    Assignment(index, c.workers, ShardOfLoad(c.load, index, c.workers), ShardOf(c.wallets, index, c.workers))
  }

  predicate Enabled(s: State, e: Event) {
    match e
    case Respond(i) => i in s.waiting && s.readyClosed > 0
    case GiveUp(i) => i in s.waiting
    case _ => true
  }

  function Step(c: Config, s: State, e: Event): State
    requires Usable(c) && Enabled(s, e)
  {
    match e
    case Register(id) =>
      var registered := s.registered + [id];
      s.(registered := registered,
         readyClosed := CloseOnce(s.readyClosed, |registered| >= c.workers),
         waiting := s.waiting + {|s.registered|})
    case Respond(i) => s.(waiting := s.waiting - {i}, responses := s.responses + [AssignmentFor(c, i)])
    case GiveUp(i) => s.(waiting := s.waiting - {i})
    case Push(id, report, done) =>
      var doneWorkers := if done then s.doneWorkers + {id} else s.doneWorkers;
      s.(results := s.results[id := report],
         doneWorkers := doneWorkers,
         allDoneClosed := CloseOnce(s.allDoneClosed, done && |doneWorkers| >= c.workers))
    case Malformed => s
  }

  predicate Legal(c: Config, s: State, es: seq<Event>)
    requires Usable(c)
    decreases |es|
  {
    es == [] || (Enabled(s, es[0]) && Legal(c, Step(c, s, es[0]), es[1..]))
  }

  function Run(c: Config, s: State, es: seq<Event>): State
    requires Usable(c) && Legal(c, s, es)
    decreases |es|
  {
    if es == [] then s else Run(c, Step(c, s, es[0]), es[1..])
  }

  // ----- The invariant ---------------------------------------------------------------------------

  /** Every index given out is in one place: a handler waiting for the barrier, one response, or
      a request that gave up. */
  ghost predicate Registration(c: Config, s: State)
    requires Usable(c)
  {
    && s.readyClosed == (if |s.registered| >= c.workers then 1 else 0)
    && (forall i :: i in s.waiting ==> i < |s.registered|)
    && (s.responses != [] ==> s.readyClosed > 0)
    && (forall k :: 0 <= k < |s.responses| ==>
        && s.responses[k] == AssignmentFor(c, s.responses[k].shardIndex)
        && s.responses[k].shardIndex < |s.registered|
        && s.responses[k].shardIndex !in s.waiting)
    && (forall k, l :: 0 <= k < l < |s.responses| ==> s.responses[k].shardIndex != s.responses[l].shardIndex)
  }

  ghost predicate Completion(c: Config, s: State) {
    && s.doneWorkers <= s.results.Keys
    && s.allDoneClosed == (if |s.doneWorkers| >= c.workers then 1 else 0)
  }

  lemma StepKeeps(c: Config, s: State, e: Event)
    requires Usable(c) && Enabled(s, e) && Registration(c, s) && Completion(c, s)
    ensures Registration(c, Step(c, s, e)) && Completion(c, Step(c, s, e))
  {
    if e.Push? && e.done {
      SubsetCardinality(s.doneWorkers, Step(c, s, e).doneWorkers);
    }
  }

  lemma {:induction false} RunKeeps(c: Config, s: State, es: seq<Event>)
    requires Usable(c) && Registration(c, s) && Completion(c, s) && Legal(c, s, es)
    ensures Registration(c, Run(c, s, es)) && Completion(c, Run(c, s, es))
    decreases |es|
  {
    if es != [] {
      StepKeeps(c, s, es[0]);
      RunKeeps(c, Step(c, s, es[0]), es[1..]);
    }
  }

  /** Registrations that were neither answered nor given up, less those still waiting. */
  function Unaccounted(s: State): int {
    |s.registered| - |s.waiting| - |s.responses|
  }

  lemma UnaccountedStep(c: Config, s: State, e: Event)
    requires Usable(c) && Enabled(s, e) && Registration(c, s)
    ensures Unaccounted(Step(c, s, e)) == Unaccounted(s) + if e.GiveUp? then 1 else 0
  {
    if e.Respond? || e.GiveUp? {
      assert s.waiting == Step(c, s, e).waiting + {e.index};
    }
  }

  lemma {:induction false} UnaccountedRun(c: Config, s: State, es: seq<Event>)
    requires Usable(c) && Registration(c, s) && Completion(c, s) && Legal(c, s, es)
    ensures Unaccounted(Run(c, s, es)) == Unaccounted(s) + GiveUps(es)
    decreases |es|
  {
    if es != [] {
      StepKeeps(c, s, es[0]);
      UnaccountedStep(c, s, es[0]);
      UnaccountedRun(c, Step(c, s, es[0]), es[1..]);
    }
  }

  lemma {:induction false} RegisteredInOrder(c: Config, s: State, es: seq<Event>)
    requires Usable(c) && Legal(c, s, es)
    ensures Run(c, s, es).registered == s.registered + RegisteredIds(es)
    decreases |es|
  {
    if es != [] {
      RegisteredInOrder(c, Step(c, s, es[0]), es[1..]);
      RegisteredStep(c, s, es[0]);
    }
  }

  lemma RegisteredStep(c: Config, s: State, e: Event)
    requires Usable(c) && Enabled(s, e)
    ensures Step(c, s, e).registered == s.registered + if e.Register? then [e.id] else []
  {
  }

  /** Registrations keep their order, and every one of them is waiting, answered or given up, never
      two of these. */
  lemma RegistrationsAdd(c: Config, es: seq<Event>)
    requires Usable(c) && Legal(c, START, es)
    ensures var s := Run(c, START, es);
      && s.registered == RegisteredIds(es)
      && |s.waiting| + |s.responses| + GiveUps(es) == |s.registered|
  {
    RegisteredInOrder(c, START, es);
    UnaccountedRun(c, START, es);
  }

  function RegisteredIds(es: seq<Event>): seq<string> {
    if es == [] then [] else (if es[0].Register? then [es[0].id] else []) + RegisteredIds(es[1..])
  }

  function GiveUps(es: seq<Event>): nat {
    if es == [] then 0 else (if es[0].GiveUp? then 1 else 0) + GiveUps(es[1..])
  }

  /** What one worker is sent belongs together: index and count say which part of the load and of the
      wallets it is. */
  lemma AssignmentSays(c: Config, index: nat)
    requires Usable(c)
    ensures var a := AssignmentFor(c, index);
      && a.shardIndex == index && a.shardCount == c.workers
      && a.load == ShardOfLoad(c.load, a.shardIndex, a.shardCount)
      && a.wallets == ShardOf(c.wallets, a.shardIndex, a.shardCount)
  {
  }

  function CohortWallets(c: Config, k: nat): seq<Wallet>
    requires Usable(c)
  {
    if k == 0 then [] else CohortWallets(c, k - 1) + AssignmentFor(c, k - 1).wallets
  }

  lemma {:induction false} CohortConcatenates(c: Config, k: nat)
    requires Usable(c)
    ensures CohortWallets(c, k) == Concatenated(c.wallets, c.workers, k)
  {
    if k > 0 {
      CohortConcatenates(c, k - 1);
    }
  }

  function CohortUsers(c: Config): seq<int>
    requires Usable(c)
  {
    seq(c.workers, i requires i >= 0 => AssignmentFor(c, i).load.vus)
  }

  function CohortRates(c: Config): seq<int>
    requires Usable(c)
  {
    seq(c.workers, i requires i >= 0 => AssignmentFor(c, i).load.rate)
  }

  /** The whole cohort's assignments, in the order of registration, are all the wallets and all the
      users, or all the rate. */
  lemma CohortGetsEverything(c: Config)
    requires Usable(c)
    ensures CohortWallets(c, c.workers) == c.wallets
    ensures Fixed(c.load) ==> Sum(CohortUsers(c)) == c.load.vus
    ensures c.load.kind == "arrival-rate" ==> Sum(CohortRates(c)) == c.load.rate
  {
    CohortConcatenates(c, c.workers);
    ShardsCoverWallets(c.wallets, c.workers);
    ShardsConserveLoad(c.load, c.workers);
    assert CohortUsers(c) == VUsOf(c.load, c.workers);
    assert CohortRates(c) == RatesOf(c.load, c.workers);
  }

  // ----- The registration barrier ------------------------------------------------------------------

  /** In every run: the barrier opens, once, exactly when enough workers have registered; nobody
      is answered before; and the answers carry different indices, each with its own shard. */
  lemma BarrierHolds(c: Config, es: seq<Event>)
    requires Usable(c) && Legal(c, START, es)
    ensures var s := Run(c, START, es);
      && (s.readyClosed == 1 <==> |s.registered| >= c.workers) && s.readyClosed <= 1
      && (s.responses != [] ==> |s.registered| >= c.workers)
      && (forall k, l :: 0 <= k < l < |s.responses| ==> s.responses[k].shardIndex != s.responses[l].shardIndex)
      && (forall k :: 0 <= k < |s.responses| ==> s.responses[k] == AssignmentFor(c, s.responses[k].shardIndex))
  {
    RunKeeps(c, START, es);
  }

  ghost predicate ResponsesApart(s: State) {
    forall k, l :: 0 <= k < l < |s.responses| ==> Apart(s.responses[k].wallets, s.responses[l].wallets)
  }

  /** However many workers register, on time or late, and in whatever order they are answered, no
      wallet goes out in two responses exactly when the controller was started for at least two
      workers, or has no wallet to give. */
  lemma WalletsGoOutOnceIff(c: Config)
    requires Usable(c) && Distinct(c.wallets)
    ensures (forall es :: Legal(c, START, es) ==> ResponsesApart(Run(c, START, es)))
       <==> c.workers >= 2 || c.wallets == []
  {
    forall es | Legal(c, START, es) && (c.workers >= 2 || c.wallets == [])
      ensures ResponsesApart(Run(c, START, es))
    {
      ResponsesApartIff(c, es);
    }
    if c.workers == 1 && c.wallets != [] {
      var es := SoleWorkerAndLateOne(c);
      ResponsesApartIff(c, es);
    }
  }

  /** A controller for one worker answers a second registrant with all wallets again. */
  lemma SoleWorkerAndLateOne(c: Config) returns (es: seq<Event>)
    requires Usable(c) && c.workers == 1
    ensures Legal(c, START, es)
    ensures var r := Run(c, START, es).responses;
      |r| == 2 && r[0].wallets == r[1].wallets == c.wallets
  {
    es := [Event.Register("first"), Event.Register("late"), Event.Respond(0), Event.Respond(1)];
    var s1 := RunOne(c, START, es);
    var s2 := RunOne(c, s1, es[1..]);
    var s3 := RunOne(c, s2, es[2..]);
    var s4 := RunOne(c, s3, es[3..]);
  }

  lemma RunOne(c: Config, s: State, es: seq<Event>) returns (s': State)
    requires Usable(c) && es != [] && Enabled(s, es[0])
    ensures s' == Step(c, s, es[0])
    ensures Legal(c, s', es[1..]) ==> Legal(c, s, es) && Run(c, s, es) == Run(c, s', es[1..])
  {
    s' := Step(c, s, es[0]);
  }

  lemma ResponsesApartIff(c: Config, es: seq<Event>)
    requires Usable(c) && Distinct(c.wallets) && Legal(c, START, es)
    ensures var s := Run(c, START, es);
      ResponsesApart(s) <==> c.workers >= 2 || |s.responses| <= 1 || c.wallets == []
  {
    RunKeeps(c, START, es);
    var s := Run(c, START, es);
    if c.workers >= 2 {
      forall k, l | 0 <= k < l < |s.responses|
        ensures Apart(s.responses[k].wallets, s.responses[l].wallets)
      {
        ShardsAreDisjoint(c.wallets, s.responses[k].shardIndex, s.responses[l].shardIndex, c.workers);
      }
    } else {
      assert forall k :: 0 <= k < |s.responses| ==> s.responses[k].wallets == c.wallets;
      if |s.responses| >= 2 && c.wallets != [] {
        assert s.responses[0].wallets[0] == s.responses[1].wallets[0];
        assert !Apart(s.responses[0].wallets, s.responses[1].wallets);
      }
    }
  }

  /** The users of the worker that received an assignment, and the wallet each of them holds. */
  function AssignedUsers(a: Assignment): nat
    requires ExpansionEnds(a.load)
  {
    if |a.wallets| == 0 then 0 else SpawnedBy(a.load)
  }

  function AssignedWallet(a: Assignment, user: nat): Wallet
    requires |a.wallets| > 0
  {
    a.wallets[user % |a.wallets|]
  }

  /** End to end, in every run of a controller for at least two workers: if there are as many
      wallets as the peak number of users, no two users of any workers that were answered, late
      ones included, ever hold the same wallet. */
  lemma WorkersShareNoWallet(c: Config, es: seq<Event>, k: nat, l: nat, a: nat, b: nat)
    requires Usable(c) && c.workers >= 2 && Distinct(c.wallets) && Legal(c, START, es)
    requires HasPeak(c.load) && Peak(c.load) <= |c.wallets|
    requires k < |Run(c, START, es).responses| && l < |Run(c, START, es).responses| && (k != l || a != b)
    ensures var r := Run(c, START, es).responses;
      ExpansionEnds(r[k].load) && ExpansionEnds(r[l].load)
    ensures var r := Run(c, START, es).responses;
      a < AssignedUsers(r[k]) && b < AssignedUsers(r[l]) ==>
        AssignedWallet(r[k], a) != AssignedWallet(r[l], b)
  {
    RunKeeps(c, START, es);
    var r := Run(c, START, es).responses;
    var i, j := r[k].shardIndex, r[l].shardIndex;
    assert r[k] == AssignmentFor(c, i) && r[l] == AssignmentFor(c, j);
    PeakManyWalletsSuffice(c.load, c.wallets, c.workers);
    if a < AssignedUsers(r[k]) && b < AssignedUsers(r[l]) {
      assert IsUser(c.load, c.wallets, c.workers, i, a) && IsUser(c.load, c.wallets, c.workers, j, b);
      assert WalletOf(c.wallets, i, c.workers, a) != WalletOf(c.wallets, j, c.workers, b);
    }
  }

  // ----- The completion latch ------------------------------------------------------------------------

  function DoneIds(es: seq<Event>): set<string> {
    if es == [] then {}
    else (if es[0].Push? && es[0].done then {es[0].id} else {}) + DoneIds(es[1..])
  }

  lemma {:induction false} DoneWorkersAre(c: Config, s: State, es: seq<Event>)
    requires Usable(c) && Legal(c, s, es)
    ensures Run(c, s, es).doneWorkers == s.doneWorkers + DoneIds(es)
    decreases |es|
  {
    if es != [] {
      DoneWorkersAre(c, Step(c, s, es[0]), es[1..]);
    }
  }

  /** In every run: the latch closes, once, exactly when as many different ids as there are
      workers have reported done, and every one of them has a result. */
  lemma LatchHolds(c: Config, es: seq<Event>)
    requires Usable(c) && Legal(c, START, es)
    ensures var s := Run(c, START, es);
      && (s.allDoneClosed == 1 <==> |DoneIds(es)| >= c.workers) && s.allDoneClosed <= 1
      && DoneIds(es) <= s.results.Keys
  {
    RunKeeps(c, START, es);
    DoneWorkersAre(c, START, es);
  }

  predicate OnlyFrom(es: seq<Event>, ids: set<string>) {
    forall e :: e in es && e.Push? ==> e.id in ids
  }

  lemma {:induction false} DoneIdsAmong(es: seq<Event>, ids: set<string>)
    requires OnlyFrom(es, ids)
    ensures DoneIds(es) <= ids
  {
    if es != [] {
      DoneIdsAmong(es[1..], ids);
    }
  }

  /** WaitForCompletion promises to block until every registered worker has reported done. For
      the workers that report to a controller it does, in every run, exactly when there are no
      more of them than it was started for (with fewer it never returns); one too many, and a
      late one counts in the place of one that is still running. */
  lemma CompletionMeansAllIff(c: Config, ids: set<string>)
    requires Usable(c)
    ensures (forall es :: Legal(c, START, es) && OnlyFrom(es, ids) && Run(c, START, es).allDoneClosed > 0
              ==> DoneIds(es) == ids)
       <==> |ids| <= c.workers
  {
    if |ids| <= c.workers {
      forall es | Legal(c, START, es) && OnlyFrom(es, ids) && Run(c, START, es).allDoneClosed > 0
        ensures DoneIds(es) == ids
      {
        LatchHolds(c, es);
        DoneIdsAmong(es, ids);
        SameSizeSubset(DoneIds(es), ids);
      }
    } else {
      var some := SubsetOfSize(ids, c.workers);
      var es := DonePushes(c, START, some);
      LatchHolds(c, es);
      assert OnlyFrom(es, ids);
      assert DoneIds(es) != ids;
    }
  }

  lemma {:induction false} SubsetOfSize<T>(s: set<T>, n: nat) returns (r: set<T>)
    requires n <= |s|
    ensures r <= s && |r| == n
    decreases n
  {
    if n == 0 {
      r := {};
    } else {
      var x :| x in s;
      var rest := SubsetOfSize(s - {x}, n - 1);
      r := rest + {x};
    }
  }

  lemma {:induction false} DonePushes(c: Config, s: State, ids: set<string>) returns (es: seq<Event>)
    requires Usable(c)
    ensures Legal(c, s, es) && OnlyFrom(es, ids) && DoneIds(es) == ids
    decreases ids
  {
    if ids == {} {
      es := [];
    } else {
      var id :| id in ids;
      var e := Push(id, ZERO_REPORT, true);
      var rest := DonePushes(c, Step(c, s, e), ids - {id});
      es := [e] + rest;
      assert es[1..] == rest;
    }
  }

  lemma SameSizeSubset<T>(a: set<T>, b: set<T>)
    requires a <= b && |a| >= |b|
    ensures a == b
  {
    assert b == a + (b - a);
  }

  /** The report a worker pushed last, if any. */
  function LastReport(es: seq<Event>, id: string): Option<Report> {
    if es == [] then None
    else
      var e := es[|es| - 1];
      if e.Push? && e.id == id then Some(e.report) else LastReport(es[..|es| - 1], id)
  }

  lemma {:induction false} LastReportOf(es: seq<Event>, id: string)
    requires es != []
    ensures LastReport(es, id) ==
      if LastReport(es[1..], id).Some? then LastReport(es[1..], id)
      else if es[0].Push? && es[0].id == id then Some(es[0].report) else None
  {
    if |es| > 1 {
      LastReportOf(es[..|es| - 1], id);
      assert es[..|es| - 1][1..] == es[1..][..|es| - 2];
    }
  }

  lemma {:induction false} ResultsAreLast(c: Config, s: State, es: seq<Event>, id: string)
    requires Usable(c) && Legal(c, s, es)
    ensures var last := LastReport(es, id);
      var results := Run(c, s, es).results;
      if last.Some? then id in results && results[id] == last.value
      else (id in results <==> id in s.results) && (id in results ==> results[id] == s.results[id])
    decreases |es|
  {
    if es != [] {
      LastReportOf(es, id);
      ResultsAreLast(c, Step(c, s, es[0]), es[1..], id);
    }
  }

  /** What Aggregate finds for a worker is the last report it pushed, done or not. */
  lemma AggregateSeesLast(c: Config, es: seq<Event>, id: string)
    requires Usable(c) && Legal(c, START, es)
    ensures var results := Run(c, START, es).results;
      && (id in results <==> LastReport(es, id).Some?)
      && (id in results ==> results[id] == LastReport(es, id).value)
  {
    ResultsAreLast(c, START, es, id);
  }

  lemma {:induction false} LastReportConcat(a: seq<Event>, b: seq<Event>, id: string)
    ensures LastReport(a + b, id) == if LastReport(b, id).Some? then LastReport(b, id) else LastReport(a, id)
  {
    if b == [] {
      assert a + b == a;
    } else {
      assert (a + b)[..|a + b| - 1] == a + b[..|b| - 1];
      LastReportConcat(a, b[..|b| - 1], id);
    }
  }

  /** A worker's final report is what Aggregate finds exactly when the worker pushes no other report
      after it, or a last one that says the same. */
  lemma FinalIsFoundIff(c: Config, es: seq<Event>, id: string, final: Report, later: seq<Event>)
    requires Usable(c) && Legal(c, START, es + [Push(id, final, true)] + later)
    ensures var results := Run(c, START, es + [Push(id, final, true)] + later).results;
      && id in results
      && (results[id] == final <==> LastReport(later, id).None? || LastReport(later, id).value == final)
  {
    AggregateSeesLast(c, es + [Push(id, final, true)] + later, id);
    LastReportConcat(es + [Push(id, final, true)], later, id);
  }

  /** So a progress push that arrives after the final report replaces it, and the latch stays
      closed: after any run, for any worker and any progress report. */
  lemma LateProgressReplacesFinal(c: Config, es: seq<Event>, id: string, final: Report, progress: Report)
    requires Usable(c) && Legal(c, START, es)
    ensures var late := es + [Push(id, final, true), Push(id, progress, false)];
      && Legal(c, START, late)
      && id in Run(c, START, late).results && Run(c, START, late).results[id] == progress
      && id in Run(c, START, late).doneWorkers
  {
    var tail := [Push(id, final, true), Push(id, progress, false)];
    var s := Run(c, START, es);
    var s1 := Step(c, s, tail[0]);
    var s2 := Step(c, s1, tail[1]);
    assert tail[1..][1..] == [];
    assert Legal(c, s1, tail[1..]) && Run(c, s1, tail[1..]) == s2;
    RunConcat(c, START, es, tail);
  }

  lemma {:induction false} RunConcat(c: Config, s: State, a: seq<Event>, b: seq<Event>)
    requires Usable(c) && Legal(c, s, a) && Legal(c, Run(c, s, a), b)
    ensures Legal(c, s, a + b) && Run(c, s, a + b) == Run(c, Run(c, s, a), b)
    decreases |a|
  {
    if a == [] {
      assert a + b == b;
    } else {
      assert (a + b)[1..] == a[1..] + b;
      RunConcat(c, Step(c, s, a[0]), a[1..], b);
    }
  }

  // ----- The controller --------------------------------------------------------------------------------

  class Server {
    const config: Config
    var registered: seq<string>
    var ready: nat
    ghost var waiting: set<nat>
    ghost var responses: seq<Assignment>
    var results: map<string, Report>
    var doneWorkers: set<string>
    var allDone: nat

    constructor (config: Config)
      ensures this.config == config && View() == START
    {
      this.config := config;
      registered, ready, waiting, responses := [], 0, {}, [];
      results, doneWorkers, allDone := map[], {}, 0;
    }

    ghost function View(): State
      reads this
    {
      State(registered, ready, waiting, responses, results, doneWorkers, allDone)
    }

    /** handleRegister up to the barrier. */
    method Register(id: string) returns (index: nat)
      requires Usable(config)
      modifies this
      ensures index == |old(registered)|
      ensures View() == Step(config, old(View()), Event.Register(id))
    {
      index := |registered|;
      registered := registered + [id];
      if |registered| >= config.workers {
        if ready == 0 {
          ready := ready + 1;
        }
      }
      waiting := waiting + {index};
    }

    /** handleRegister from the barrier on; None is the request that ended first. */
    method Respond(index: nat, ended: bool) returns (a: Option<Assignment>)
      requires Usable(config) && index in waiting && (ready > 0 || ended)
      modifies this
      ensures a == if ended then None else Some(AssignmentFor(config, index))
      ensures View() == Step(config, old(View()), if ended then GiveUp(index) else Event.Respond(index))
    {
      waiting := waiting - {index};
      if ended {
        return None;
      }
      AcceptedCanShard(config.load, index, config.workers);
      var load := Shard(config.load, index, config.workers);
      var wallets := ShardWallets(config.wallets, index, config.workers);
      var assignment := Assignment(index, config.workers, load.value, wallets);
      responses := responses + [assignment];
      return Some(assignment);
    }

    /** handleMetrics. */
    method ReceiveMetrics(id: string, report: Report, done: bool)
      requires Usable(config)
      modifies this
      ensures View() == Step(config, old(View()), Push(id, report, done))
    {
      results := results[id := report];
      if done {
        doneWorkers := doneWorkers + {id};
        if |doneWorkers| >= config.workers {
          if allDone == 0 {
            allDone := allDone + 1;
          }
        }
      }
    }

    method AggregateResults() returns (r: Metrics.Report)
      ensures forall ids: seq<string> :: Enumerates(ids, results) ==>
        (forall id :: id in ids ==> id in results) && r == AggregateOf(config.name, ReportsIn(results, ids))
    {
      r := Aggregate(Some(config.name), results);
    }
  }
}
