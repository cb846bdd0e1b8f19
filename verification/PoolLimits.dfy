/**
 Where the pool's service ends: which sleepers can still be served, pools that never serve anybody,
 and what becomes of a pool whose callers release NULL.
 */
module PoolLimits {
  import opened PoolMachine
  import opened PoolSafety
  import opened PoolProgress
  import opened PoolSections

  /** A disciplined run takes `s` to `u`. */
  ghost predicate Leads(s: Pool, acts: seq<Action>, u: Pool) {
    CanRun(s, acts) && AllProper(s, acts) && RunFrom(s, acts) == u
  }

  lemma LeadsOn(s: Pool, acts: seq<Action>, u: Pool, more: seq<Action>, v: Pool)
    requires Leads(s, acts, u) && Leads(u, more, v)
    ensures Leads(s, acts + more, v)
  {
    RunConcat(s, acts, more);
  }

  lemma LeadsOne(s: Pool, a: Action)
    requires Enabled(s, a) && Proper(s, a)
    ensures Leads(s, [a], Apply(s, a))
  {
    assert [a][1..] == [];
  }

  lemma LeadsTwo(s: Pool, a: Action, b: Action)
    requires Enabled(s, a) && Proper(s, a) && Enabled(Apply(s, a), b) && Proper(Apply(s, a), b)
    ensures Leads(s, [a, b], Apply(Apply(s, a), b))
  {
    LeadsOne(s, a);
    LeadsOne(Apply(s, a), b);
    LeadsOn(s, [a], Apply(s, a), [b], Apply(Apply(s, a), b));
    assert [a] + [b] == [a, b];
  }

  /** A call that gets the mutex at once. */
  lemma EnterGet(s: Pool, t: Tid)
    requires t < |s.pcs| && s.pcs[t] == Out && s.mutex == Unheld
    ensures Leads(s, [CallGet(t), Lock(t)], s.(mutex := Held(t, 1), pcs := s.pcs[t := GetTest(false)]))
  {
    LeadsTwo(s, CallGet(t), Lock(t));
  }

  lemma EnterRel(s: Pool, t: Tid, r: Ref)
    requires t < |s.pcs| && s.pcs[t] == Out && s.mutex == Unheld
    ensures Leads(s, [CallRel(t, r), Lock(t)], s.(mutex := Held(t, 1), pcs := s.pcs[t := RelPush(r)]))
  {
    LeadsTwo(s, CallRel(t, r), Lock(t));
  }

  /** The same, as far as the limit test, when the free list is empty. */
  function ToLimit(t: Tid): seq<Action> {
    [CallGet(t), Lock(t)] + [Test(t), Limit(t)]
  }

  lemma EnterLimit(s: Pool, t: Tid)
    requires t < |s.pcs| && s.pcs[t] == Out && s.mutex == Unheld && s.free == []
    ensures Leads(s, ToLimit(t),
                  s.(mutex := Held(t, 1), pcs := s.pcs[t := if s.cur >= s.max then GetWait else GetConnect]))
  {
    var s1 := s.(mutex := Held(t, 1), pcs := s.pcs[t := GetTest(false)]);
    EnterGet(s, t);
    LeadsTwo(s1, Test(t), Limit(t));
    LeadsOn(s, [CallGet(t), Lock(t)], s1, [Test(t), Limit(t)], Apply(Apply(s1, Test(t)), Limit(t)));
  }

  lemma TestPop(s: Pool, t: Tid)
    requires t < |s.pcs| && s.pcs[t].GetTest? && s.free != []
    ensures Leads(s, [Test(t), Pop(t)], s.(pcs := s.pcs[t := GetUnlock(s.free[0])], free := s.free[1..],
                                           leases := s.leases + {Lease(t, s.free[0])}))
  {
    LeadsTwo(s, Test(t), Pop(t));
  }

  // ---- which sleepers can still be served

  /** In GetDBConn with no connection yet, and no attempt at one under way. */
  predicate Waits(pc: Pc) {
    pc == GetLock || pc.GetTest? || pc == GetLimit || pc == GetWait || pc == Asleep || pc == Woken
  }

  /** Whoever has a connection waits for another one, and there is none. */
  ghost predicate Stuck(s: Pool) {
    s.free == [] && s.cur >= s.max && forall l <- s.leases :: l.t < |s.pcs| && Waits(s.pcs[l.t])
  }

  lemma StuckStep(s: Pool, a: Action)
    requires Stuck(s) && PointsOk(s) && Enabled(s, a) && Proper(s, a)
    ensures Stuck(Apply(s, a))
  {
    assert PointOk(s, a.t);
    var u := Apply(s, a);
    assert u.leases == s.leases;
    forall l <- u.leases
      ensures l.t < |u.pcs| && Waits(u.pcs[l.t])
    {
      assert Waits(s.pcs[l.t]);
    }
  }

  lemma {:induction false} StuckRun(s: Pool, acts: seq<Action>)
    requires Inv(s) && Stuck(s) && CanRun(s, acts) && AllProper(s, acts)
    ensures Inv(RunFrom(s, acts)) && Stuck(RunFrom(s, acts))
    decreases acts
  {
    if acts != [] {
      StuckStep(s, acts[0]);
      StepKeepsInv(s, acts[0]);
      StuckRun(Apply(s, acts[0]), acts[1..]);
    }
  }

  /** In some disciplined continuation `t` is handed a connection. */
  ghost predicate CanBeServed(s: Pool, t: Tid) {
    exists acts, u :: Leads(s, acts, u) && t < |u.pcs| && u.pcs[t].GetUnlock?
  }

  /** A connection put back by a thread outside wakes the sleeper... */
  lemma ReleaseWakes(s: Pool, l: Lease, t: Tid) returns (acts: seq<Action>, u: Pool)
    requires s.mutex == Unheld && s.free == [] && l in s.leases && l.t < |s.pcs| && s.pcs[l.t] == Out
    requires t < |s.pcs| && s.pcs[t] == Asleep
    ensures Leads(s, acts, u) && u.mutex == Unheld && u.free == [l.r] && t < |u.pcs| && u.pcs[t] == Woken
  {
    EnterRel(s, l.t, l.r);
    var s1 := s.(mutex := Held(l.t, 1), pcs := s.pcs[l.t := RelPush(l.r)]);
    assert t in Sleepers(s1);
    RelLeads(s1, l.t, l.r, {t});
    acts, u := [CallRel(l.t, l.r), Lock(l.t)] + RelSteps(l.t, {t}), RelResult(s1, l.t, l.r, {t});
    LeadsOn(s, [CallRel(l.t, l.r), Lock(l.t)], s1, RelSteps(l.t, {t}), u);
  }

  lemma RelLeads(s: Pool, t: Tid, r: Ref, woken: set<Tid>)
    requires t < |s.pcs| && s.pcs[t] == RelPush(r) && s.mutex == Held(t, 1) && Lease(t, r) in s.leases
    requires woken <= Sleepers(s) && (woken == {} ==> Sleepers(s) == {})
    ensures Leads(s, RelSteps(t, woken), RelResult(s, t, r, woken))
  {
    var s1 := Apply(s, Push(t));
    assert Sleepers(s1) == Sleepers(s);
    RelStepsResult(s, t, r, woken);
    LeadsOne(s, Push(t));
    LeadsTwo(s1, Action.Signal(t, woken), Unlock(t));
    var s3 := Apply(Apply(s1, Action.Signal(t, woken)), Unlock(t));
    LeadsOn(s, [Push(t)], s1, [Action.Signal(t, woken), Unlock(t)], s3);
    assert [Push(t)] + [Action.Signal(t, woken), Unlock(t)] == RelSteps(t, woken);
  }

  /** ... which then takes it. */
  lemma WokenTakes(s: Pool, t: Tid) returns (acts: seq<Action>, u: Pool)
    requires s.mutex == Unheld && s.free != [] && t < |s.pcs| && s.pcs[t] == Woken
    ensures Leads(s, acts, u) && t < |u.pcs| && u.pcs[t].GetUnlock?
  {
    var s2 := Apply(Apply(s, Lock(t)), Test(t));
    LeadsTwo(s, Lock(t), Test(t));
    LeadsOne(s2, Pop(t));
    acts, u := [Lock(t), Test(t)] + [Pop(t)], Apply(s2, Pop(t));
    LeadsOn(s, [Lock(t), Test(t)], s2, [Pop(t)], u);
  }

  /**
   Once nobody is under way, a sleeper can still be served if and only if some connection is lent to
   a thread that is not asleep itself.  In particular it cannot if nothing is lent, or if everybody
   who has a connection waits for a second one.
   */
  lemma ServedIff(s: Pool, t: Tid)
    requires Inv(s) && Quiet(s) && t < |s.pcs| && s.pcs[t] == Asleep
    ensures CanBeServed(s, t) <==> exists l <- s.leases :: l.t < |s.pcs| && s.pcs[l.t] == Out
  {
    QuietExhausted(s);
    if l :| l in s.leases && l.t < |s.pcs| && s.pcs[l.t] == Out {
      var before, v := ReleaseWakes(s, l, t);
      var acts, u := WokenTakes(v, t);
      LeadsOn(s, before, v, acts, u);
    } else {
      assert Stuck(s);
      forall acts, u | Leads(s, acts, u) && t < |u.pcs|
        ensures !u.pcs[t].GetUnlock?
      {
        StuckRun(s, acts);
        assert PointOk(u, t);
      }
    }
  }

  // ---- pools that never serve anybody

  /** A call that meets nobody else and finds a connection... */
  lemma FindsOne(s: Pool, t: Tid)
    requires t < |s.pcs| && s.pcs[t] == Out && s.mutex == Unheld && s.free != []
    ensures CanBeServed(s, t)
  {
    var s1 := s.(mutex := Held(t, 1), pcs := s.pcs[t := GetTest(false)]);
    EnterGet(s, t);
    TestPop(s1, t);
    var s2 := s1.(pcs := s1.pcs[t := GetUnlock(s.free[0])], free := s.free[1..],
                  leases := s.leases + {Lease(t, s.free[0])});
    LeadsOn(s, [CallGet(t), Lock(t)], s1, [Test(t), Pop(t)], s2);
  }

  /** ... or establishes one. */
  lemma MakesOne(s: Pool, t: Tid)
    requires t < |s.pcs| && s.pcs[t] == Out && s.mutex == Unheld && s.free == [] && s.cur < s.max
    ensures CanBeServed(s, t)
  {
    var s1 := s.(mutex := Held(t, 1), pcs := s.pcs[t := GetConnect]);
    EnterLimit(s, t);
    var acts, u := ConnectTakes(s1, t);
    LeadsOn(s, ToLimit(t), s1, acts, u);
  }

  lemma ConnectTakes(s: Pool, t: Tid) returns (acts: seq<Action>, u: Pool)
    requires t < |s.pcs| && s.pcs[t] == GetConnect
    ensures Leads(s, acts, u) && t < |u.pcs| && u.pcs[t].GetUnlock?
  {
    var s1 := Apply(s, Connect(t, true));
    acts, u := [Connect(t, true)] + [Test(t), Pop(t)], Apply(Apply(s1, Test(t)), Pop(t));
    LeadsOne(s, Connect(t, true));
    LeadsTwo(s1, Test(t), Pop(t));
    LeadsOn(s, [Connect(t, true)], s1, [Test(t), Pop(t)], u);
  }

  /**
   A new pool can ever serve a thread if and only if its Init succeeded or its maximum is 2 or more:
   the one place a failed Init takes for good may be the only one there is.
   */
  lemma PoolServesIff(threads: nat, max: int, ok: bool, t: Tid)
    requires t < threads
    ensures CanBeServed(Start(threads, max, ok), t) <==> ok || max >= 2
  {
    var s := Start(threads, max, ok);
    if ok || max >= 2 {
      if ok {
        FindsOne(s, t);
      } else {
        MakesOne(s, t);
      }
    } else {
      StartOk(threads, max, ok);
      forall acts, u | Leads(s, acts, u) && t < |u.pcs|
        ensures !u.pcs[t].GetUnlock?
      {
        RunKeepsInv(s, acts);
        ConstantsKept(s, acts);
        assert PointOk(u, t) && u.leases == {};
      }
    }
  }

  /** The other side of it as a run: the first caller sleeps, and nothing but chance can wake it. */
  lemma FailedInitStarves(max: int) returns (u: Pool)
    requires max <= 1
    ensures Leads(Start(1, max, false), ToLimit(0) + [Sleep(0)], u)
    ensures u.pcs == [Asleep] && u.leases == {} && u.made == 0 && Exhausted(u)
    ensures forall a: Action :: Enabled(u, a) <==> a == Spurious(0)
  {
    var s := Start(1, max, false);
    var s1 := s.(mutex := Held(0, 1), pcs := s.pcs[0 := GetWait]);
    EnterLimit(s, 0);
    LeadsOne(s1, Sleep(0));
    u := Apply(s1, Sleep(0));
    LeadsOn(s, ToLimit(0), s1, [Sleep(0)], u);
    AloneAsleep(u);
  }

  lemma AloneAsleep(s: Pool)
    requires |s.pcs| == 1 && s.pcs[0] == Asleep && s.free == [] && s.leases == {} && s.made == 0
    requires s.mutex == Unheld && s.cur >= s.max
    ensures s.pcs == [Asleep] && Exhausted(s)
    ensures forall a: Action :: Enabled(s, a) <==> a == Spurious(0)
  {
  }

  // ---- pools that grow to their maximum

  lemma {:induction false} NoPushProper(s: Pool, acts: seq<Action>)
    requires CanRun(s, acts) && forall a <- acts :: !a.Push?
    ensures AllProper(s, acts)
    decreases acts
  {
    if acts != [] {
      assert acts[0] in acts;
      NoPushProper(Apply(s, acts[0]), acts[1..]);
    }
  }

  /** A call that gets the mutex at once and connects if it has to. */
  lemma CallLeads(s: Pool, t: Tid)
    requires t < |s.pcs| && s.pcs[t] == Out && s.mutex == Unheld
    ensures var u := s.(mutex := Held(t, 1), pcs := s.pcs[t := GetTest(false)]);
            Leads(s, [CallGet(t), Lock(t)] + GetSteps(u, t, true), GetResult(u, t, true))
  {
    var u := s.(mutex := Held(t, 1), pcs := s.pcs[t := GetTest(false)]);
    EnterGet(s, t);
    GetStepsResult(u, t, true);
    GetStepsPure(u, t);
    NoPushProper(u, GetSteps(u, t, true));
    LeadsOn(s, [CallGet(t), Lock(t)], u, GetSteps(u, t, true), GetResult(u, t, true));
  }

  lemma GetStepsPure(s: Pool, t: Tid)
    ensures forall a <- GetSteps(s, t, true) :: !a.Push?
  {
  }

  /** The pool while its threads below `n` have a connection each and the others have not called yet. */
  ghost predicate Grown(s: Pool, threads: nat, max: int, n: nat) {
    && |s.pcs| == threads && (forall t: Tid {:trigger s.pcs[t]} :: t < threads ==> s.pcs[t] == Out)
    && s.mutex == Unheld && s.max == max && s.made == |s.leases| + |s.free|
    && |s.leases| == n && (forall l <- s.leases :: l.t < n)
    && s.free == (if n == 0 && s.lost == 0 then [Conn(0)] else [])
    && s.cur == (if n == 0 && s.lost == 0 then 1 else n + s.lost) && s.lost <= 1
  }

  lemma GrowsByOne(s: Pool, threads: nat, max: int, n: nat) returns (acts: seq<Action>, u: Pool)
    requires Grown(s, threads, max, n) && n < threads && (s.free != [] || s.cur < max)
    ensures Leads(s, acts, u) && Grown(u, threads, max, n + 1) && u.lost == s.lost
  {
    CallLeads(s, n);
    var v := s.(mutex := Held(n, 1), pcs := s.pcs[n := GetTest(false)]);
    acts, u := [CallGet(n), Lock(n)] + GetSteps(v, n, true), GetResult(v, n, true);
    var conn := GetValue(v, true);
    assert Lease(n, conn) !in s.leases;
    assert u.leases == s.leases + {Lease(n, conn)};
    assert u.pcs == s.pcs;
  }

  lemma {:induction false} GrowsTo(threads: nat, max: int, ok: bool, n: nat) returns (acts: seq<Action>, u: Pool)
    requires n <= threads && n + (if ok then 0 else 1) <= Cap(max)
    ensures Leads(Start(threads, max, ok), acts, u) && Grown(u, threads, max, n) && u.lost == if ok then 0 else 1
  {
    var s := Start(threads, max, ok);
    if n == 0 {
      acts, u := [], s;
    } else {
      var before, v := GrowsTo(threads, max, ok, n - 1);
      var more;
      more, u := GrowsByOne(v, threads, max, n - 1);
      acts := before + more;
      LeadsOn(s, before, v, more, u);
    }
  }

  /**
   With enough callers a pool does grow to the maximum it was given: some disciplined run ends with all
   callers outside, the count at the maximum, and that many connections lent, one less if Init failed.
   */
  lemma ReachesMaximum(threads: nat, max: int, ok: bool) returns (acts: seq<Action>, u: Pool)
    requires threads >= Cap(max)
    ensures Leads(Start(threads, max, ok), acts, u) && Quiet(u) && !Sleeping(u)
    ensures u.cur == (if max < 1 then 1 else max) && u.free == []
    ensures |u.leases| == u.cur - (if ok then 0 else 1)
  {
    acts, u := GrowsTo(threads, max, ok, Cap(max) - if ok then 0 else 1);
  }

  // ---- handing over

  /** A connection handed over can be released by the thread it was handed to, which is disciplined. */
  lemma HandedOverReleased(s: Pool, l: Lease, to: Tid) returns (acts: seq<Action>, u: Pool)
    requires Inv(s) && s.mutex == Unheld && l in s.leases && to < |s.pcs| && s.pcs[l.t] == Out && s.pcs[to] == Out
    ensures Leads(s, [HandOver(l.t, to, l.r)] + acts, u)
    ensures acts == [CallRel(to, l.r), Lock(to)] + RelSteps(to, Sleepers(s))
    ensures u.free == s.free + [l.r] && u.leases == s.leases - {l}
  {
    var s1 := Apply(s, HandOver(l.t, to, l.r));
    LeadsOne(s, HandOver(l.t, to, l.r));
    EnterRel(s1, to, l.r);
    var s2 := s1.(mutex := Held(to, 1), pcs := s1.pcs[to := RelPush(l.r)]);
    assert Sleepers(s2) == Sleepers(s);
    RelLeads(s2, to, l.r, Sleepers(s));
    u := RelResult(s2, to, l.r, Sleepers(s));
    LeadsOn(s1, [CallRel(to, l.r), Lock(to)], s2, RelSteps(to, Sleepers(s)), u);
    acts := [CallRel(to, l.r), Lock(to)] + RelSteps(to, Sleepers(s));
    LeadsOn(s, [HandOver(l.t, to, l.r)], s1, acts, u);
    assert l.r !in s.free && (Lease(to, l.r) in s.leases ==> Lease(to, l.r) == l);
  }

  // ---- releasing NULL

  /** A failed call whose result is released all the same, as far as the push. */
  function Careless(t: Tid): seq<Action> {
    [Unlock(t)] + [CallRel(t, Null), Lock(t)] + [Push(t)]
  }

  /** The rest of the release, and the next call of the same thread. */
  function NextCall(t: Tid): seq<Action> {
    [Action.Signal(t, {}), Unlock(t)] + [CallGet(t), Lock(t)] + [Test(t), Pop(t)]
  }

  /**
   A caller that releases the NULL of a failed GetDBConn, as callers do, puts NULL in the free list.
   Its next call is handed that NULL, although there is room for a connection and none is attempted.
   */
  lemma NullReleaseBreaks(s: Pool, t: Tid) returns (u: Pool, v: Pool)
    requires Inv(s) && t < |s.pcs| && s.pcs[t] == GetFail
    ensures Steps(s, Careless(t), u) && u.free == [Null] && !DataOk(u) && u.cur == s.cur && u.max == s.max
    ensures Steps(u, NextCall(t), v) && v.pcs == u.pcs[t := GetUnlock(Null)]
    ensures v.made == s.made && v.cur == s.cur < s.max
  {
    assert Holding(s.pcs[t]) && PointOk(s, t);
    u := CarelessSteps(s, t);
    RoomNoSleepers(s);
    assert Sleepers(u) == Sleepers(s);
    v := NextCallSteps(u, t);
  }

  lemma CarelessSteps(s: Pool, t: Tid) returns (u: Pool)
    requires Inv(s) && t < |s.pcs| && s.pcs[t] == GetFail && s.mutex == Held(t, 1) && s.free == []
    ensures Steps(s, Careless(t), u) && !DataOk(u)
    ensures u == s.(pcs := s.pcs[t := RelSignal], free := [Null])
  {
    var s1 := Apply(s, Unlock(t));
    var s2 := s1.(mutex := Held(t, 1), pcs := s1.pcs[t := RelPush(Null)]);
    LeadsOne(s, Unlock(t));
    EnterRel(s1, t, Null);
    OneStep(s2, Push(t));
    assert Null !in s.free && forall l <- s.leases :: l.r != Null;
    u := s.(pcs := s.pcs[t := RelSignal], free := [Null]);
    assert Apply(s2, Push(t)) == u;
    StepsOn(s, [Unlock(t)], s1, [CallRel(t, Null), Lock(t)], s2);
    StepsOn(s, [Unlock(t)] + [CallRel(t, Null), Lock(t)], s2, [Push(t)], u);
    assert Null in u.free;
  }

  lemma SignalLeave(s: Pool, t: Tid)
    requires t < |s.pcs| && s.pcs[t] == RelSignal && s.mutex == Held(t, 1) && Sleepers(s) == {}
    ensures Leads(s, [Action.Signal(t, {}), Unlock(t)], s.(mutex := Unheld, pcs := s.pcs[t := Out]))
  {
    assert Wake(s.pcs, {}) == s.pcs;
    LeadsTwo(s, Action.Signal(t, {}), Unlock(t));
  }

  lemma NextCallSteps(s: Pool, t: Tid) returns (v: Pool)
    requires t < |s.pcs| && s.pcs[t] == RelSignal && s.mutex == Held(t, 1) && Sleepers(s) == {}
    requires s.free == [Null]
    ensures Steps(s, NextCall(t), v) && v.pcs == s.pcs[t := GetUnlock(Null)]
    ensures v.made == s.made && v.cur == s.cur
  {
    var s1 := s.(mutex := Unheld, pcs := s.pcs[t := Out]);
    var s2 := s1.(mutex := Held(t, 1), pcs := s1.pcs[t := GetTest(false)]);
    SignalLeave(s, t);
    EnterGet(s1, t);
    TestPop(s2, t);
    v := s2.(pcs := s2.pcs[t := GetUnlock(Null)], free := s2.free[1..], leases := s2.leases + {Lease(t, Null)});
    StepsOn(s, [Action.Signal(t, {}), Unlock(t)], s1, [CallGet(t), Lock(t)], s2);
    StepsOn(s, [Action.Signal(t, {}), Unlock(t)] + [CallGet(t), Lock(t)], s2, [Test(t), Pop(t)], v);
  }

  /** While there is room for more connections nobody sleeps. */
  lemma RoomNoSleepers(s: Pool)
    requires PointsOk(s) && s.cur < s.max
    ensures Sleepers(s) == {}
  {
    forall t: Tid | t < |s.pcs|
      ensures s.pcs[t] != Asleep
    {
      assert PointOk(s, t);
    }
  }

  /** With nothing free and room for more, a call may come to the point of returning NULL. */
  lemma MayFail(s: Pool, t: Tid) returns (u: Pool)
    requires t < |s.pcs| && s.pcs[t] == Out && s.mutex == Unheld && s.free == [] && s.cur < s.max
    ensures Leads(s, ToLimit(t) + [Connect(t, false)], u) && |u.pcs| == |s.pcs| && u.pcs[t] == GetFail
  {
    var s1 := s.(mutex := Held(t, 1), pcs := s.pcs[t := GetConnect]);
    EnterLimit(s, t);
    LeadsOne(s1, Connect(t, false));
    u := Apply(s1, Connect(t, false));
    LeadsOn(s, ToLimit(t), s1, [Connect(t, false)], u);
  }

  /** A call that finds a free connection takes it and returns. */
  lemma TakesOne(s: Pool, t: Tid)
    requires t < |s.pcs| && s.pcs[t] == Out && s.mutex == Unheld && s.free != []
    ensures Leads(s, [CallGet(t), Lock(t)] + [Test(t), Pop(t)] + [Unlock(t)],
                  s.(free := s.free[1..], leases := s.leases + {Lease(t, s.free[0])}))
  {
    var s1 := s.(mutex := Held(t, 1), pcs := s.pcs[t := GetTest(false)]);
    var s2 := s1.(pcs := s1.pcs[t := GetUnlock(s.free[0])], free := s.free[1..],
                  leases := s.leases + {Lease(t, s.free[0])});
    EnterGet(s, t);
    TestPop(s1, t);
    LeadsOne(s2, Unlock(t));
    assert s2.pcs[t := Out] == s.pcs;
    LeadsOn(s, [CallGet(t), Lock(t)], s1, [Test(t), Pop(t)], s2);
    LeadsOn(s, [CallGet(t), Lock(t)] + [Test(t), Pop(t)], s2, [Unlock(t)], Apply(s2, Unlock(t)));
  }

  /**
   So NULL does get into the free list of a new pool: if Init succeeded, in a run of two threads of
   which one takes the first connection and the attempt of the other fails; if not, at the first call.
   */
  lemma NullReleaseRun(ok: bool) returns (acts: seq<Action>, u: Pool)
    ensures Steps(Start(2, 2, ok), acts, u) && u.free == [Null] && u.cur < u.max
  {
    var s, s1, before := Start(2, 2, ok), Start(2, 2, ok), [];
    if ok {
      before := [CallGet(0), Lock(0)] + [Test(0), Pop(0)] + [Unlock(0)];
      s1 := s.(free := [], leases := {Lease(0, Conn(0))});
      TakesOne(s, 0);
    }
    var s2 := MayFail(s1, 1);
    LeadsOn(s, before, s1, ToLimit(1) + [Connect(1, false)], s2);
    StartOk(2, 2, ok);
    before := before + (ToLimit(1) + [Connect(1, false)]);
    RunKeepsInv(s, before);
    var v;
    u, v := NullReleaseBreaks(s2, 1);
    acts := before + Careless(1);
    StepsOn(s, before, s2, Careless(1), u);
  }

  /** NULL is neither in the free list nor on its way into or out of it. */
  ghost predicate NoNull(s: Pool) {
    && Null !in s.free
    && forall t: Tid {:trigger s.pcs[t]} :: t < |s.pcs| ==>
         s.pcs[t] != GetUnlock(Null) && s.pcs[t] != RelLock(Null) && s.pcs[t] != RelPush(Null)
  }

  lemma NoNullStep(s: Pool, a: Action)
    requires NoNull(s) && Enabled(s, a) && !(a.CallRel? && a.r == Null)
    ensures NoNull(Apply(s, a))
  {
    var u := Apply(s, a);
    assert a.Pop? ==> s.free == [s.free[0]] + u.free && s.free[0] in s.free;
    forall t: Tid | t < |u.pcs|
      ensures u.pcs[t] != GetUnlock(Null) && u.pcs[t] != RelLock(Null) && u.pcs[t] != RelPush(Null)
    {
      assert s.pcs[t] != GetUnlock(Null) && s.pcs[t] != RelLock(Null);
      assert s.pcs[a.t] != RelLock(Null);
    }
    assert s.pcs[a.t] != RelPush(Null);
  }

  lemma {:induction false} NoNullRun(s: Pool, acts: seq<Action>)
    requires NoNull(s) && CanRun(s, acts) && forall a <- acts :: !(a.CallRel? && a.r == Null)
    ensures NoNull(RunFrom(s, acts))
    decreases acts
  {
    if acts != [] {
      assert acts[0] in acts;
      NoNullStep(s, acts[0]);
      NoNullRun(Apply(s, acts[0]), acts[1..]);
    }
  }

  /**
   As long as nobody releases NULL, whatever else callers release and in whatever order, NULL is never
   in the free list and never handed out: a call returns NULL only if its own attempt failed.
   */
  lemma NeverHandedNull(threads: nat, max: int, ok: bool, acts: seq<Action>)
    requires CanRun(Start(threads, max, ok), acts)
    requires forall a <- acts :: !(a.CallRel? && a.r == Null)
    ensures var s := RunFrom(Start(threads, max, ok), acts);
            Null !in s.free && forall t: Tid :: t < |s.pcs| ==> s.pcs[t] != GetUnlock(Null)
  {
    NoNullRun(Start(threads, max, ok), acts);
  }
}
