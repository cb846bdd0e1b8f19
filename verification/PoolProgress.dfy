/**
 Progress of the pool without fairness assumptions: as long as clients make no new calls and nobody
 wakes spuriously, the threads inside settle after a bounded number of steps, and a thread still
 asleep then means that the pool is exhausted.
 */
module PoolProgress {
  import opened PoolMachine
  import opened PoolSafety

  /** No thread is on its way through the pool. */
  ghost predicate Quiet(s: Pool) {
    forall t: Tid {:trigger s.pcs[t]} :: t < |s.pcs| ==> s.pcs[t] == Out || s.pcs[t] == Asleep
  }

  ghost predicate Sleeping(s: Pool) {
    exists t: Tid :: t < |s.pcs| && s.pcs[t] == Asleep
  }

  /** No connection is free, none will be added, and all there are are lent out. */
  ghost predicate Exhausted(s: Pool) {
    && s.mutex == Unheld && s.free == [] && s.cur >= s.max && |s.leases| == s.made
    && forall r: Ref :: Made(s, r) ==> Lent(s, r)
  }

  /** What chance decides for a call: the outcome of a connection attempt, and whom a signal favours. */
  datatype Luck = Luck(connects: bool, pick: set<Tid>)

  /** Whom a signal wakes if it favours `pick`: those of them asleep, or else everybody. */
  function Chosen(s: Pool, pick: set<Tid>): (woken: set<Tid>)
    ensures woken <= Sleepers(s) && (woken == {} ==> Sleepers(s) == {})
    ensures pick != {} && pick <= Sleepers(s) ==> woken == pick
  {
    assert pick <= Sleepers(s) ==> pick * Sleepers(s) == pick;
    if pick * Sleepers(s) == {} then Sleepers(s) else pick * Sleepers(s)
  }

  /** Thread `t` is in a call and not asleep. */
  predicate UnderWay(s: Pool, t: Tid) {
    t < |s.pcs| && s.pcs[t] != Out && s.pcs[t] != Asleep
  }

  /** The step a thread under way takes next. */
  function NextStep(s: Pool, t: Tid, luck: Luck): Action
    requires UnderWay(s, t)
  {
    match s.pcs[t]
    case GetLock => Lock(t)
    case Woken => Lock(t)
    case RelLock(_) => Lock(t)
    case GetTest(_) => Test(t)
    case GetLimit => Limit(t)
    case GetWait => Sleep(t)
    case GetConnect => Connect(t, luck.connects)
    case GetPop(_) => Pop(t)
    case RelPush(_) => Push(t)
    case RelSignal => Signal(t, Chosen(s, luck.pick))
    case _ => Unlock(t)
  }

  /** It can take it exactly if it holds the mutex, or wants it and nobody holds it. */
  lemma NextStepIff(s: Pool, t: Tid, luck: Luck)
    requires MutexOk(s) && PointsOk(s) && UnderWay(s, t)
    ensures Enabled(s, NextStep(s, t, luck)) <==> Holding(s.pcs[t]) || s.mutex == Unheld
  {
    assert PointOk(s, t);
    assert s.mutex.Held? && s.mutex.t == t ==> Holding(s.pcs[t]);
  }

  /** If any thread is under way, some step of the pool's own code can be taken. */
  lemma SomeStep(s: Pool, t: Tid) returns (a: Action)
    requires MutexOk(s) && PointsOk(s)
    requires UnderWay(s, t)
    ensures a.Internal() && Enabled(s, a)
  {
    var u := if s.mutex.Held? then s.mutex.t else t;
    assert s.mutex.Held? ==> Holding(s.pcs[u]);
    NextStepIff(s, u, Luck(true, {}));
    a := NextStep(s, u, Luck(true, {}));
  }

  /** The pool's own code can move exactly when a thread is under way. */
  lemma MovesIff(s: Pool)
    requires MutexOk(s) && PointsOk(s)
    ensures (exists a: Action :: a.Internal() && Enabled(s, a)) <==> !Quiet(s)
  {
    if !Quiet(s) {
      var t: Tid :| t < |s.pcs| && s.pcs[t] != Out && s.pcs[t] != Asleep;
      var a := SomeStep(s, t);
    }
  }

  lemma {:induction false} NoClaims(pcs: seq<Pc>)
    requires forall t :: 0 <= t < |pcs| ==> Claim(pcs[t]) == 0
    ensures Sum(pcs, Claim) == 0
  {
    if pcs != [] {
      NoClaims(pcs[1..]);
    }
  }

  /** A thread that sleeps while nobody is under way sleeps before an exhausted pool. */
  lemma QuietExhausted(s: Pool)
    requires Inv(s) && Quiet(s) && Sleeping(s)
    ensures Exhausted(s) && (s.leases != {} <==> s.lost == 0 || s.max >= 2)
  {
    NoClaims(s.pcs);
    assert s.mutex.Held? ==> Holding(s.pcs[s.mutex.t]);
    var t: Tid :| t < |s.pcs| && s.pcs[t] == Asleep;
    assert PointOk(s, t);
  }

  /**
   Freedom from deadlock: in any state a disciplined run reaches, either the pool's code can take a
   step, or every thread is outside or asleep.  If any then sleeps, no connection is free, no more can
   be added, and all there are are lent; and there are any exactly if Init succeeded or the maximum
   is 2 or more.
   */
  lemma DeadlockFree(threads: nat, max: int, ok: bool, acts: seq<Action>)
    requires CanRun(Start(threads, max, ok), acts) && AllProper(Start(threads, max, ok), acts)
    ensures var s := RunFrom(Start(threads, max, ok), acts);
            (exists a: Action :: a.Internal() && Enabled(s, a)) ||
            (Quiet(s) && (Sleeping(s) ==> Exhausted(s) && s.cur >= max && (s.leases != {} <==> ok || max >= 2)))
  {
    var s := RunFrom(Start(threads, max, ok), acts);
    StartOk(threads, max, ok);
    RunKeepsInv(Start(threads, max, ok), acts);
    ConstantsKept(Start(threads, max, ok), acts);
    MovesIff(s);
    if Quiet(s) && Sleeping(s) {
      QuietExhausted(s);
    }
  }

  /** How much a thread can still do by itself; a signal may wake all of `n` threads. */
  function Weight(n: nat, pc: Pc): nat {
    match pc
    case Out => 0
    case Asleep => 0
    case GetWait => 1
    case GetFail => 1
    case GetUnlock(_) => 1
    case RelUnlock => 1
    case GetPop(_) => 2
    case GetConnect => 2
    case GetLimit => 3
    case GetTest(_) => 4
    case GetLock => 5
    case Woken => 5
    case RelSignal => 2 + n * 5
    case RelPush(_) => 3 + n * 5
    case RelLock(_) => 4 + n * 5
  }

  function WeightOf(n: nat): Pc -> nat {
    pc => Weight(n, pc)
  }

  /** How many connections may still be added. */
  function Room(s: Pool): nat {
    if s.cur < s.max then s.max - s.cur else 0
  }

  function Energy(s: Pool): nat {
    3 * Room(s) + Sum(s.pcs, WeightOf(|s.pcs|))
  }

  lemma SignalRouses(s: Pool, a: Action)
    requires Enabled(s, a) && a.Signal?
    ensures Roused(s.pcs, Wake(s.pcs, a.woken))
  {
    forall t | 0 <= t < |s.pcs| && t in a.woken
      ensures s.pcs[t] == Asleep
    {
      assert t in Sleepers(s);
    }
  }

  lemma SignalDrops(s: Pool, a: Action)
    requires Enabled(s, a) && a.Signal?
    ensures Energy(Apply(s, a)) < Energy(s)
  {
    var q, n, w := Wake(s.pcs, a.woken), |s.pcs|, WeightOf(|s.pcs|);
    SignalRouses(s, a);
    SumRoused(s.pcs, q, w);
    assert w(Woken) - w(Asleep) == 5;
    SumUpdate(q, a.t, RelUnlock, w);
    assert q[a.t] == RelSignal && w(RelSignal) == 2 + n * 5;
  }

  /** Any other step moves one thread on; adding a connection pays with room for the second test. */
  lemma ThreadDrops(s: Pool, a: Action)
    requires PointsOk(s) && Enabled(s, a) && a.Internal() && !a.Signal?
    ensures var u, n := Apply(s, a), |s.pcs|;
            3 * Room(u) + Weight(n, u.pcs[a.t]) < 3 * Room(s) + Weight(n, s.pcs[a.t])
  {
    assert PointOk(s, a.t);
  }

  lemma EnergyDrops(s: Pool, a: Action)
    requires PointsOk(s) && Enabled(s, a) && a.Internal()
    ensures Energy(Apply(s, a)) < Energy(s)
  {
    if a.Signal? {
      SignalDrops(s, a);
    } else {
      var u := Apply(s, a);
      ThreadDrops(s, a);
      assert u.pcs == s.pcs[a.t := u.pcs[a.t]];
      SumUpdate(s.pcs, a.t, u.pcs[a.t], WeightOf(|s.pcs|));
    }
  }

  ghost predicate AllInternal(acts: seq<Action>) {
    forall a <- acts :: a.Internal()
  }

  /** The pool's code cannot take a step. */
  ghost predicate Stopped(s: Pool) {
    !exists a: Action :: a.Internal() && Enabled(s, a)
  }

  lemma PointsStep(s: Pool, a: Action)
    requires MutexOk(s) && PointsOk(s) && Enabled(s, a)
    ensures MutexOk(Apply(s, a)) && PointsOk(Apply(s, a))
  {
    MutexStep(s, a);
    forall t: Tid | t < |s.pcs|
      ensures PointOk(Apply(s, a), t)
    {
      PointStep(s, a, t);
    }
  }

  /** The pool's own code comes to rest: it cannot take more steps than the energy it starts with. */
  lemma {:induction false} InternalRunsEnd(s: Pool, acts: seq<Action>)
    requires MutexOk(s) && PointsOk(s) && CanRun(s, acts) && AllInternal(acts)
    ensures |acts| + Energy(RunFrom(s, acts)) <= Energy(s)
    decreases acts
  {
    if acts != [] {
      assert acts[0] in acts;
      EnergyDrops(s, acts[0]);
      PointsStep(s, acts[0]);
      InternalRunsEnd(Apply(s, acts[0]), acts[1..]);
    }
  }

  lemma {:induction false} RunConcat(s: Pool, acts: seq<Action>, more: seq<Action>)
    requires CanRun(s, acts) && AllProper(s, acts)
    requires CanRun(RunFrom(s, acts), more) && AllProper(RunFrom(s, acts), more)
    ensures CanRun(s, acts + more) && AllProper(s, acts + more)
    ensures RunFrom(s, acts + more) == RunFrom(RunFrom(s, acts), more)
    decreases acts
  {
    if acts == [] {
      assert acts + more == more;
    } else {
      assert (acts + more)[0] == acts[0] && (acts + more)[1..] == acts[1..] + more;
      RunConcat(Apply(s, acts[0]), acts[1..], more);
    }
  }

  /**
   Everybody is served or the pool is exhausted: from any state of a disciplined run, letting the
   pool's code run until it stops takes at most Energy steps, and ends with every call returned
   except those of threads asleep before an exhausted pool, which has connections to wait for
   exactly if Init succeeded or the maximum is 2 or more.
   */
  lemma CallsSettle(threads: nat, max: int, ok: bool, before: seq<Action>, acts: seq<Action>)
    requires CanRun(Start(threads, max, ok), before) && AllProper(Start(threads, max, ok), before)
    requires var s := RunFrom(Start(threads, max, ok), before);
             CanRun(s, acts) && AllInternal(acts) && AllProper(s, acts) && Stopped(RunFrom(s, acts))
    ensures var s := RunFrom(Start(threads, max, ok), before);
            var u := RunFrom(s, acts);
            && |acts| <= Energy(s) && Quiet(u)
            && (Sleeping(u) ==> Exhausted(u) && u.cur >= max && (u.leases != {} <==> ok || max >= 2))
  {
    var s := RunFrom(Start(threads, max, ok), before);
    StartOk(threads, max, ok);
    RunKeepsInv(Start(threads, max, ok), before);
    InternalRunsEnd(s, acts);
    RunConcat(Start(threads, max, ok), before, acts);
    DeadlockFree(threads, max, ok, before + acts);
  }
}
