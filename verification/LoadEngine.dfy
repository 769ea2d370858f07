/** internal/load/engine.go: virtual users held at a constant or a staged number.

    A virtual user is named by its place in the order of spawning, which is the value the wallet
    cursor had; its wallet follows from that. */
module LoadEngine {
  import opened Prelude
  import opened Scenario

  datatype RunError = NoWallets | UnsupportedType | BadStages(error: LoadError) | Interrupted

  /** The errors Run can return before any load starts. */
  function StartError(l: Load, wallets: nat): Option<RunError>
    requires ExpansionEnds(l)
  {
    if wallets == 0 then Some(NoWallets)
    else if Fixed(l) || l.kind == "arrival-rate" then None
    else if Staged(l) then
      match ResolvedStages(l)
      case Err(e) => Some(BadStages(e))
      case Ok(_) => None
    else Some(UnsupportedType)
  }

  /** Run takes none of its error branches on a load that validation accepted, unless there is no
      wallet at all. */
  lemma AcceptedLoadStarts(l: Load, wallets: nat)
    requires Accepted(l)
    ensures ExpansionEnds(l)
    ensures StartError(l, wallets) == if wallets == 0 then Some(NoWallets) else None
  {
  }

  /** Any other load is refused too, but only for want of a wallet or for its kind. */
  lemma StartErrorIff(l: Load, wallets: nat)
    requires ExpansionEnds(l)
    ensures var e := StartError(l, wallets);
      && (e == Some(NoWallets) <==> wallets == 0)
      && (e == Some(UnsupportedType) <==>
          wallets > 0 && l.kind !in {"constant", "soak", "ramping", "spike", "stress", "arrival-rate"})
      && (e.Some? ==> e.value.NoWallets? || e.value.UnsupportedType?)
  {
  }

  // ----- The crew: active users, how many were spawned, and who was cancelled --------------------

  /** `active` is the stack of cancel functions, `cancelled` the order in which they were called. */
  datatype Crew = Crew(active: seq<nat>, spawned: nat, cancelled: seq<nat>)

  function Scaled(c: Crew, target: int): Crew {
    if target > |c.active| then
      var more := target - |c.active|;
      c.(active := c.active + Iota(c.spawned, more), spawned := c.spawned + more)
    else
      var keep := Max(target, 0);
      c.(active := c.active[..keep], cancelled := c.cancelled + Reversed(c.active[keep..]))
  }

  function Stopped(c: Crew): Crew {
    c.(active := [], cancelled := c.cancelled + c.active)
  }

  function AfterStages(c: Crew, stages: seq<Stage>): Crew {
    if stages == [] then c
    else Scaled(AfterStages(c, stages[..|stages| - 1]), stages[|stages| - 1].target)
  }

  ghost predicate Increasing(s: seq<nat>) {
    forall i, j :: 0 <= i < j < |s| ==> s[i] < s[j]
  }

  /** Every user spawned is either active or was cancelled, once; the stack is in spawning order. */
  ghost predicate Consistent(c: Crew) {
    && Increasing(c.active)
    && (forall i :: 0 <= i < |c.active| ==> c.active[i] < c.spawned)
    && multiset(c.active) + multiset(c.cancelled) == multiset(Iota(0, c.spawned))
  }

  const NOBODY := Crew([], 0, [])

  lemma IotaGrows(n: nat, more: nat)
    ensures Iota(0, n + more) == Iota(0, n) + Iota(n, more)
  {
  }

  lemma ScaledConsistent(c: Crew, target: int)
    requires Consistent(c)
    ensures Consistent(Scaled(c, target))
  {
    if target > |c.active| {
      IotaGrows(c.spawned, target - |c.active|);
    } else {
      RetireConsistent(c, Max(target, 0));
    }
  }

  lemma RetireConsistent(c: Crew, keep: nat)
    requires Consistent(c) && keep <= |c.active|
    ensures Consistent(c.(active := c.active[..keep], cancelled := c.cancelled + Reversed(c.active[keep..])))
  {
    var kept, retired := c.active[..keep], c.active[keep..];
    ReversedKeeps(retired);
    assert c.active == kept + retired;
    assert multiset(c.active) == multiset(kept) + multiset(retired);
  }

  /** scaleTo reaches its target; the users it retires were all spawned after those it keeps; and
      it spawns only what is missing. */
  lemma ScaledReaches(c: Crew, target: nat)
    requires Consistent(c)
    ensures var d := Scaled(c, target);
      && |d.active| == target
      && d.spawned == c.spawned + Max(0, target - |c.active|)
      && (target <= |c.active| ==>
          && d.active == c.active[..target]
          && forall i, j :: 0 <= i < target <= j < |c.active| ==> c.active[i] < c.active[j])
      && (|c.active| <= target ==> c.active <= d.active && d.cancelled == c.cancelled)
  {
  }

  /** Scaling down cancels exactly the users it drops from the stack, the youngest first. */
  lemma RetiresYoungestFirst(c: Crew, target: int)
    requires Consistent(c) && target <= |c.active|
    ensures var d := Scaled(c, target);
      var retired := d.cancelled[|c.cancelled|..];
      && d.cancelled == c.cancelled + retired
      && (forall a :: a in c.active && a !in d.active ==> a in retired)
      && (forall i, j :: 0 <= i < j < |retired| ==> retired[i] > retired[j])
  {
    var tail := c.active[Max(target, 0)..];
    ReversedDescends(tail);
    assert Scaled(c, target).cancelled[|c.cancelled|..] == Reversed(tail);
    assert c.active == Scaled(c, target).active + tail;
  }

  lemma ReversedDescends(s: seq<nat>)
    requires Increasing(s)
    ensures |Reversed(s)| == |s|
    ensures forall i, j :: 0 <= i < j < |s| ==> Reversed(s)[i] > Reversed(s)[j]
    ensures forall a :: a in s ==> a in Reversed(s)
  {
    ReversedKeeps(s);
    SameLength(Reversed(s), s);
    forall i | 0 <= i < |s| ensures Reversed(s)[i] == s[|s| - 1 - i] {
      ReversedAt(s, i);
    }
    forall a | a in s ensures a in Reversed(s) {
      assert a in multiset(s);
    }
  }

  /** The sum of the upward moves from a level through a list of stages. */
  function Climb(level: nat, stages: seq<Stage>): nat
    decreases |stages|
  {
    if stages == [] then 0
    else Max(0, stages[0].target - level) + Climb(Max(0, stages[0].target), stages[1..])
  }

  function LevelAfter(level: nat, stages: seq<Stage>): nat {
    if stages == [] then level else Max(0, stages[|stages| - 1].target)
  }

  lemma {:induction false} ClimbSnoc(level: nat, stages: seq<Stage>, s: Stage)
    ensures Climb(level, stages + [s]) == Climb(level, stages) + Max(0, s.target - LevelAfter(level, stages))
    decreases |stages|
  {
    if stages == [] {
      assert [s][1..] == [];
    } else {
      assert (stages + [s])[1..] == stages[1..] + [s];
      ClimbSnoc(Max(0, stages[0].target), stages[1..], s);
    }
  }

  /** After any list of stages the active number is the last target, and as many users were
      spawned as the targets climbed in total. */
  lemma {:induction false} StagesReach(c: Crew, stages: seq<Stage>)
    requires Consistent(c)
    ensures var d := AfterStages(c, stages);
      && Consistent(d)
      && |d.active| == LevelAfter(|c.active|, stages)
      && d.spawned == c.spawned + Climb(|c.active|, stages)
  {
    if stages != [] {
      var before, s := stages[..|stages| - 1], stages[|stages| - 1];
      StagesReach(c, before);
      StageReaches(c, AfterStages(c, before), before, s);
      assert stages == before + [s];
    }
  }

  lemma StageReaches(c: Crew, d: Crew, before: seq<Stage>, s: Stage)
    requires Consistent(d)
    requires |d.active| == LevelAfter(|c.active|, before) && d.spawned == c.spawned + Climb(|c.active|, before)
    ensures var e := Scaled(d, s.target);
      && Consistent(e)
      && |e.active| == Max(0, s.target)
      && e.spawned == c.spawned + Climb(|c.active|, before + [s])
  {
    ClimbSnoc(|c.active|, before, s);
    ScaledConsistent(d, s.target);
    ScaledLevel(d, s.target);
  }

  lemma ScaledLevel(c: Crew, target: int)
    ensures |Scaled(c, target).active| == Max(0, target)
    ensures Scaled(c, target).spawned == c.spawned + Max(0, target - |c.active|)
  {
  }

  /** Once everything is stopped, every user spawned has been cancelled exactly once. */
  lemma StoppedCancelsAll(c: Crew)
    requires Consistent(c)
    ensures Stopped(c).active == [] && multiset(Stopped(c).cancelled) == multiset(Iota(0, c.spawned))
  {
  }

  /** The stages a run enters before its context is cancelled. */
  function Entered(stages: seq<Stage>, cancelAt: Option<nat>): seq<Stage> {
    if cancelAt.Some? && cancelAt.value < |stages| then stages[..cancelAt.value + 1] else stages
  }

  lemma ClimbOfEntered(stages: seq<Stage>, cancelAt: Option<nat>)
    ensures Climb(0, Entered(stages, cancelAt)) <= Climb(0, stages)
  {
    if cancelAt.Some? && cancelAt.value < |stages| {
      ClimbGrows(0, stages, cancelAt.value + 1);
    }
  }

  /** On the normal and on the cancelled exit every user spawned so far has been cancelled once. */
  lemma StagesEnd(c: Crew, stages: seq<Stage>, cancelAt: Option<nat>)
    requires Consistent(c) && c.active == []
    ensures var entered := Entered(stages, cancelAt);
      var d := Stopped(AfterStages(c, entered));
      && d.active == [] && multiset(d.cancelled) == multiset(Iota(0, d.spawned))
      && d.spawned == c.spawned + Climb(0, entered) <= c.spawned + Climb(0, stages)
  {
    StagesReach(c, Entered(stages, cancelAt));
    StoppedCancelsAll(AfterStages(c, Entered(stages, cancelAt)));
    ClimbOfEntered(stages, cancelAt);
  }

  // ----- The engine ------------------------------------------------------------------------------

  class Engine<Wallet> {
    const wallets: seq<Wallet>
    var walletCursor: nat
    var active: seq<nat>
    ghost var cancelled: seq<nat>
    /** The wallet each user was spawned with. */
    ghost var walletOf: seq<Wallet>

    constructor (wallets: seq<Wallet>)
      ensures this.wallets == wallets && State() == NOBODY && Idle()
    {
      this.wallets := wallets;
      walletCursor, active, cancelled, walletOf := 0, [], [], [];
    }

    ghost function State(): Crew
      reads this
    {
      Crew(active, walletCursor, cancelled)
    }

    /** Users take the wallets round robin, in the order in which they are spawned. */
    ghost predicate RoundRobin()
      reads this
    {
      && |walletOf| == walletCursor
      && forall i :: 0 <= i < |walletOf| ==> wallets != [] && walletOf[i] == wallets[i % |wallets|]
    }

    /** Nobody is active, and every user ever spawned has been cancelled exactly once. */
    ghost predicate Idle()
      reads this
    {
      RoundRobin() && active == [] && multiset(cancelled) == multiset(Iota(0, walletCursor))
    }

    method NextWallet() returns (w: Wallet)
      requires wallets != []
      modifies this`walletCursor
      ensures walletCursor == old(walletCursor) + 1
      ensures w == wallets[old(walletCursor) % |wallets|]
    {
      w := wallets[walletCursor % |wallets|];
      walletCursor := walletCursor + 1;
    }

    /** The users are all cancelled by the end of their context: the deadline, or the caller's own
        context, in which case the run is `interrupted`. */
    method RunConstant(vus: int, interrupted: bool) returns (err: Option<RunError>)
      requires RoundRobin() && wallets != []
      modifies this
      ensures RoundRobin()
      ensures var n := Max(vus, 0);
        State() == old(State()).(
          spawned := old(walletCursor) + n, cancelled := old(cancelled) + Iota(old(walletCursor), n))
      ensures err == if interrupted then Some(Interrupted) else None
      ensures old(Idle()) ==> Idle()
    {
      var i := 0;
      while i < vus
        invariant 0 <= i <= Max(vus, 0)
        invariant RoundRobin()
        invariant State() == old(State()).(spawned := old(walletCursor) + i)
        decreases vus - i
      {
        var w := NextWallet();
        walletOf := walletOf + [w];
        i := i + 1;
      }
      cancelled := cancelled + Iota(old(walletCursor), i);
      IotaGrows(old(walletCursor), i);
      return if interrupted then Some(Interrupted) else None;
    }

    method ScaleTo(target: int)
      requires RoundRobin() && wallets != []
      modifies this
      ensures RoundRobin()
      ensures State() == Scaled(old(State()), target)
    {
      var delta := target - |active|;
      if delta > 0 {
        for i := 0 to delta
          invariant RoundRobin()
          invariant walletCursor == old(walletCursor) + i
          invariant active == old(active) + Iota(old(walletCursor), i)
          invariant cancelled == old(cancelled)
        {
          active := active + [walletCursor];
          var w := NextWallet();
          walletOf := walletOf + [w];
          assert Iota(old(walletCursor), i + 1) == Iota(old(walletCursor), i) + [old(walletCursor) + i];
        }
      } else if delta < 0 {
        var i := 0;
        while i < -delta && |active| > 0
          invariant 0 <= i <= |old(active)| && i <= -delta
          invariant RoundRobin() && walletCursor == old(walletCursor)
          invariant active == old(active)[..|old(active)| - i]
          invariant cancelled == old(cancelled) + Reversed(old(active)[|old(active)| - i..])
          decreases |active|
        {
          var last := |active| - 1;
          ReversedSnoc(old(active)[last..]);
          cancelled := cancelled + [active[last]];
          active := active[..last];
          i := i + 1;
        }
      }
    }

    method StopAll()
      requires RoundRobin() && wallets != []
      modifies this
      ensures RoundRobin()
      ensures State() == Stopped(old(State()))
    {
      for i := 0 to |active|
        invariant RoundRobin() && walletCursor == old(walletCursor) && active == old(active)
        invariant cancelled == old(cancelled) + old(active)[..i]
      {
        cancelled := cancelled + [active[i]];
      }
      active := [];
    }

    /** Runs the stages; `cancelAt` is the stage during which the context is cancelled, if any. */
    method RunRamping(stages: seq<Stage>, cancelAt: Option<nat>) returns (err: Option<RunError>)
      requires RoundRobin() && wallets != []
      modifies this
      ensures RoundRobin()
      ensures err == if cancelAt.Some? && cancelAt.value < |stages| then Some(Interrupted) else None
      ensures State() == Stopped(AfterStages(old(State()), Entered(stages, cancelAt)))
    {
      for i := 0 to |stages|
        invariant RoundRobin()
        invariant State() == AfterStages(old(State()), stages[..i])
        invariant cancelAt.Some? ==> i <= cancelAt.value
      {
        assert stages[..i + 1][..i] == stages[..i];
        ScaleTo(stages[i].target);
        if cancelAt == Some(i) {
          StopAll();
          return Some(Interrupted);
        }
      }
      assert stages[..|stages|] == stages;
      StopAll();
      return None;
    }

    method RunStages(stages: seq<Stage>, cancelAt: Option<nat>) returns (err: Option<RunError>)
      requires Idle() && wallets != []
      modifies this
      ensures Idle()
      ensures err == if cancelAt.Some? && cancelAt.value < |stages| then Some(Interrupted) else None
      ensures walletCursor == old(walletCursor) +
        Climb(0, if err.Some? then stages[..cancelAt.value + 1] else stages)
      ensures walletCursor <= old(walletCursor) + Climb(0, stages)
    {
      StagesEnd(State(), stages, cancelAt);
      err := RunRamping(stages, cancelAt);
    }

    /** Run, for the loads that run users; a fixed load counts as one stage. A completed run has
        spawned what the load asks for, one interrupted in a stage what the stages up to and with
        that one climb, and on every exit each user has been cancelled exactly once. */
    method Run(l: Load, cancelAt: Option<nat>) returns (err: Option<RunError>)
      requires ExpansionEnds(l) && l.kind != "arrival-rate"
      requires Idle()
      modifies this
      ensures Idle()
      ensures var n := if Fixed(l) then 1 else if Staged(l) then |ResolvedStages(l).value| else 0;
        err == if StartError(l, |wallets|).Some? then StartError(l, |wallets|)
               else if cancelAt.Some? && cancelAt.value < n then Some(Interrupted)
               else None
      ensures walletCursor <= old(walletCursor) + SpawnedBy(l)
      ensures err.None? || (err == Some(Interrupted) && Fixed(l)) ==>
        walletCursor == old(walletCursor) + SpawnedBy(l)
      ensures err == Some(Interrupted) && Staged(l) ==>
        walletCursor == old(walletCursor) + Climb(0, ResolvedStages(l).value[..cancelAt.value + 1])
      ensures StartError(l, |wallets|).Some? ==> State() == old(State())
    {
      if |wallets| == 0 {
        return Some(NoWallets);
      }
      if Fixed(l) {
        err := RunConstant(l.vus, cancelAt == Some(0));
      } else if Staged(l) {
        var stages := ResolveStages(l);
        err := RunStages(stages.value, cancelAt);
      } else {
        return Some(UnsupportedType);
      }
    }
  }

  lemma {:induction false} ReversedSnoc<T>(s: seq<T>)
    requires s != []
    ensures Reversed(s) == Reversed(s[1..]) + [s[0]]
  {
    if |s| > 1 {
      ReversedSnoc(s[..|s| - 1]);
      assert s[..|s| - 1][1..] == s[1..][..|s| - 2];
    }
  }

  // ----- Who shares a wallet -----------------------------------------------------------------------

  /** No two of these users were given the same one of `wallets` wallets. */
  ghost predicate NoneShares(users: set<nat>, wallets: nat)
    requires wallets > 0
  {
    forall a, b :: a in users && b in users && a != b ==> a % wallets != b % wallets
  }

  /** Nobody waits for a retired user to finish its iteration before the next stage, so at any
      moment the users still running are all the active ones and any of the retired. */
  ghost predicate MayRun(c: Crew, users: set<nat>) {
    && (forall a :: a in users ==> a < c.spawned)
    && (forall i :: 0 <= i < |c.active| ==> c.active[i] in users)
  }

  lemma FirstLapIsInjective(n: nat, wallets: nat)
    requires wallets > 0
    ensures NoneShares(Span(0, n), wallets) <==> n <= wallets
  {
    if n <= wallets {
      forall a, b | a in Span(0, n) && b in Span(0, n) && a != b ensures a % wallets != b % wallets {
        ModSmall(a, wallets);
        ModSmall(b, wallets);
      }
    } else {
      assert 0 in Span(0, n) && wallets in Span(0, n);
      assert 0 % wallets == wallets % wallets;
    }
  }

  lemma ModSmall(a: nat, b: nat)
    requires a < b
    ensures a % b == a
  {
  }

  /** However long retired users linger, no two users running at the same time share a wallet
      exactly when there are as many wallets as users were spawned. */
  lemma RunningShareNoWalletIff(c: Crew, wallets: nat)
    requires Consistent(c) && wallets > 0
    ensures (forall users :: MayRun(c, users) ==> NoneShares(users, wallets)) <==> c.spawned <= wallets
  {
    FirstLapIsInjective(c.spawned, wallets);
    assert MayRun(c, Span(0, c.spawned));
    if c.spawned <= wallets {
      forall users | MayRun(c, users) ensures NoneShares(users, wallets) {
        forall a, b | a in users && b in users && a != b ensures a % wallets != b % wallets {
          assert a in Span(0, c.spawned) && b in Span(0, c.spawned);
        }
      }
    }
  }

  lemma {:induction false} ClimbGrows(level: nat, stages: seq<Stage>, k: nat)
    requires k <= |stages|
    ensures Climb(level, stages[..k]) <= Climb(level, stages)
    decreases |stages|
  {
    if k < |stages| {
      var before := stages[..|stages| - 1];
      assert stages == before + [stages[|stages| - 1]] && stages[..k] == before[..k];
      ClimbSnoc(level, before, stages[|stages| - 1]);
      ClimbGrows(level, before, k);
    } else {
      assert stages[..k] == stages;
    }
  }

  /** Over a whole stage list: no two users that may still run share a wallet in any stage, however
      long retired ones linger in their last iteration, exactly when there are as many wallets as
      the targets climb in total. */
  lemma RampingSharesNoWalletIff(stages: seq<Stage>, wallets: nat)
    requires wallets > 0
    ensures (forall k, users :: 0 <= k <= |stages| && MayRun(AfterStages(NOBODY, stages[..k]), users)
              ==> NoneShares(users, wallets))
       <==> Climb(0, stages) <= wallets
  {
    forall k | 0 <= k <= |stages|
      ensures Consistent(AfterStages(NOBODY, stages[..k]))
      ensures AfterStages(NOBODY, stages[..k]).spawned == Climb(0, stages[..k]) <= Climb(0, stages)
    {
      StagesReach(NOBODY, stages[..k]);
      ClimbGrows(0, stages, k);
    }
    assert stages[..|stages|] == stages;
    if Climb(0, stages) <= wallets {
      forall k, users | 0 <= k <= |stages| && MayRun(AfterStages(NOBODY, stages[..k]), users)
        ensures NoneShares(users, wallets)
      {
        RunningShareNoWalletIff(AfterStages(NOBODY, stages[..k]), wallets);
      }
    } else {
      RunningShareNoWalletIff(AfterStages(NOBODY, stages[..|stages|]), wallets);
    }
  }

  /** docs/dsl-reference.md:142-144 asks for as many wallets as the peak number of users, so that
      no two concurrently active users share one. That is enough for stages that only climb, but
      not for every list: with two wallets and the targets 2, 1, 2 both users active in the last
      stage hold the first wallet. */
  lemma PeakIsNotEnough(d: int)
    ensures var stages := [Stage(d, 2), Stage(d, 1), Stage(d, 2)];
      && AfterStages(NOBODY, stages).active == [0, 2]
      && Climb(0, stages) == 3
      && 0 % 2 == 2 % 2
  {
    var s2, s1 := Stage(d, 2), Stage(d, 1);
    var stages := [s2, s1, s2];
    assert stages[..2] == [s2, s1] && [s2, s1][..1] == [s2] && [s2][..0] == [];
    assert AfterStages(NOBODY, [s2]) == Scaled(NOBODY, 2);
    assert AfterStages(NOBODY, [s2, s1]) == Scaled(Scaled(NOBODY, 2), 1);
    assert Iota(0, 2) == [0, 1];
    assert stages[1..] == [s1, s2] && [s1, s2][1..] == [s2] && [s2][1..] == [];
    assert Climb(2, [s1, s2]) == Climb(1, [s2]) == 1;
  }

  /** The total climb is exact only with the retired users counted in, who may still run. With two
      wallets and the targets 2, 0, 2 the active users never share one, although they climb to 4;
      the first retired user and the first active one of the last stage do. */
  lemma ActiveAloneMayBeApart(d: int)
    ensures var stages := [Stage(d, 2), Stage(d, 0), Stage(d, 2)];
      && AfterStages(NOBODY, stages[..1]).active == [0, 1] && 0 % 2 != 1 % 2
      && AfterStages(NOBODY, stages[..2]).active == []
      && AfterStages(NOBODY, stages).active == [2, 3] && 2 % 2 != 3 % 2
      && Climb(0, stages) == 4
      && MayRun(AfterStages(NOBODY, stages), {0, 2, 3}) && !NoneShares({0, 2, 3}, 2)
  {
    var s2, s0 := Stage(d, 2), Stage(d, 0);
    var stages := [s2, s0, s2];
    assert stages[..2] == [s2, s0] && [s2, s0][..1] == [s2] && [s2][..0] == [] && stages[..1] == [s2];
    assert AfterStages(NOBODY, [s2]) == Scaled(NOBODY, 2);
    assert AfterStages(NOBODY, [s2, s0]) == Scaled(Scaled(NOBODY, 2), 0);
    assert Iota(0, 2) == [0, 1] && Iota(2, 2) == [2, 3];
    assert stages[1..] == [s0, s2] && [s0, s2][1..] == [s2] && [s2][1..] == [];
    assert Climb(2, [s0, s2]) == Climb(0, [s2]) == 2;
    assert 0 in {0, 2, 3} && 2 in {0, 2, 3} && 0 % 2 == 2 % 2;
  }

  // ----- How many users a load spawns ---------------------------------------------------------------

  function SpawnedBy(l: Load): nat
    requires ExpansionEnds(l)
  {
    if Fixed(l) then Max(l.vus, 0)
    else if Staged(l) then Climb(0, ResolvedStages(l).value)
    else 0
  }

  /** The most users a load keeps active at a time. */
  function Peak(l: Load): int {
    if Fixed(l) then l.vus else if l.kind == "spike" then l.target else l.max
  }

  ghost predicate NeverFalls(stages: seq<Stage>) {
    forall i, j :: 0 <= i < j < |stages| ==> stages[i].target <= stages[j].target
  }

  lemma {:induction false} ClimbOfRise(level: nat, stages: seq<Stage>)
    requires stages != [] && NeverFalls(stages) && level <= stages[0].target
    ensures Climb(level, stages) == stages[|stages| - 1].target - level
    decreases |stages|
  {
    if |stages| > 1 {
      ClimbOfRise(stages[0].target, stages[1..]);
    } else {
      assert stages[1..] == [];
    }
  }

  lemma ClimbOfSpike(b: Stage, t: Stage, a: Stage)
    requires 0 <= b.target <= t.target && a.target == b.target
    ensures Climb(0, [b, t, a]) == t.target
  {
    assert [b, t, a][1..] == [t, a] && [t, a][1..] == [a] && [a][1..] == [];
    assert Climb(t.target, [a]) == 0;
  }
}
