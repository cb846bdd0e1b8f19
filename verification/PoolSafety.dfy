/**
 What every run of the pool keeps: mutual exclusion, conservation and exclusivity of connections,
 the bound on their number, and that no wakeup is lost.
 */
module PoolSafety {
  import opened PoolMachine

  /** The program points at which a thread holds the mutex. */
  predicate Holding(pc: Pc) {
    match pc
    case GetTest(_) => true
    case GetLimit => true
    case GetWait => true
    case GetConnect => true
    case GetFail => true
    case GetPop(_) => true
    case GetUnlock(_) => true
    case RelPush(_) => true
    case RelSignal => true
    case RelUnlock => true
    case _ => false
  }

  /** The mutex is held by the one thread that is at a holding point, once. */
  ghost predicate MutexOk(s: Pool) {
    && (s.mutex.Held? ==> s.mutex.t < |s.pcs| && s.mutex.depth == 1)
    && forall t: Tid {:trigger s.pcs[t]} :: t < |s.pcs| ==> (Holding(s.pcs[t]) <==> s.mutex == Held(t, 1))
  }

  function Cap(max: int): int {
    if max < 1 then 1 else max
  }

  ghost predicate Distinct<T(!new)>(xs: seq<T>) {
    forall i, j :: 0 <= i < j < |xs| ==> xs[i] != xs[j]
  }

  /** `r` is one of the connections established so far. */
  predicate Made(s: Pool, r: Ref) {
    r.Conn? && r.id < s.made
  }

  ghost predicate Lent(s: Pool, r: Ref) {
    exists t: Tid :: Lease(t, r) in s.leases
  }

  /** The free list holds connections of the pool, none twice. */
  ghost predicate FreeOk(s: Pool) {
    (forall r <- s.free :: Made(s, r)) && Distinct(s.free)
  }

  /** What is lent is a connection of the pool, lent once, and not free. */
  ghost predicate LentOk(s: Pool) {
    && (forall l <- s.leases :: l.t < |s.pcs| && Made(s, l.r) && l.r !in s.free)
    && forall l, m :: l in s.leases && m in s.leases && l.r == m.r ==> l == m
  }

  ghost predicate NoneMissing(s: Pool) {
    forall r: Ref :: Made(s, r) ==> r in s.free || Lent(s, r)
  }

  /** The count is right, except for the one Init may have lost, and bounded. */
  predicate CountOk(s: Pool) {
    |s.free| + |s.leases| == s.made == s.cur - s.lost && s.lost <= 1 <= s.cur <= Cap(s.max)
  }

  /** Conservation and exclusivity. */
  ghost predicate DataOk(s: Pool) {
    FreeOk(s) && LentOk(s) && NoneMissing(s) && CountOk(s)
  }

  /** What a program point says about the data. */
  ghost predicate PointOk(s: Pool, t: Tid)
    requires t < |s.pcs|
  {
    match s.pcs[t]
    case GetPop(_) => s.free != []
    case GetLimit => s.free == []
    case GetWait => s.free == [] && s.cur >= s.max
    case GetConnect => s.free == [] && s.cur < s.max
    case GetFail => s.free == [] && s.cur < s.max
    case Asleep => s.cur >= s.max
    case GetUnlock(r) => Lease(t, r) in s.leases
    case _ => true
  }

  ghost predicate PointsOk(s: Pool) {
    forall t: Tid {:trigger PointOk(s, t)} :: t < |s.pcs| ==> PointOk(s, t)
  }

  /** A waiter woken and not finished, or a thread that has released and not yet signalled. */
  predicate Claims(pc: Pc) {
    pc == Woken || pc == GetTest(true) || pc == GetPop(true) || pc == RelSignal
  }

  function Claim(pc: Pc): nat {
    if Claims(pc) then 1 else 0
  }

  /** No lost wakeup: while anyone sleeps, every free connection has somebody coming for it. */
  ghost predicate WakeOk(s: Pool) {
    (exists t: Tid :: t < |s.pcs| && s.pcs[t] == Asleep) ==> |s.free| <= Sum(s.pcs, Claim)
  }

  ghost predicate Inv(s: Pool) {
    MutexOk(s) && DataOk(s) && PointsOk(s) && WakeOk(s)
  }

  /** A thread puts back what is lent to it, or something that is in the list anyway. */
  ghost predicate Proper(s: Pool, a: Action)
    requires Enabled(s, a)
  {
    a.Push? ==> s.pcs[a.t].r in s.free || Lease(a.t, s.pcs[a.t].r) in s.leases
  }

  lemma StartOk(threads: nat, max: int, ok: bool)
    ensures Inv(Start(threads, max, ok))
  {
    var s := Start(threads, max, ok);
    assert ok ==> Conn(0) in s.free;
    assert forall t: Tid :: t < threads ==> PointOk(s, t);
  }

  lemma MutexStep(s: Pool, a: Action)
    requires MutexOk(s) && Enabled(s, a)
    ensures MutexOk(Apply(s, a))
  {
    var u := Apply(s, a);
    assert Holding(s.pcs[a.t]) ==> s.mutex == Held(a.t, 1);
    forall t: Tid | t < |u.pcs|
      ensures Holding(u.pcs[t]) <==> u.mutex == Held(t, 1)
    {
      assert Holding(s.pcs[t]) <==> s.mutex == Held(t, 1);
    }
  }

  /** Two threads cannot both be at holding points. */
  lemma HolderUnique(s: Pool, t: Tid, u: Tid)
    requires MutexOk(s) && t < |s.pcs| && u < |s.pcs| && Holding(s.pcs[t]) && Holding(s.pcs[u])
    ensures t == u
  {
  }

  lemma PointStep(s: Pool, a: Action, t: Tid)
    requires MutexOk(s) && PointsOk(s) && Enabled(s, a) && t < |s.pcs|
    ensures PointOk(Apply(s, a), t)
  {
    assert PointOk(s, t) && PointOk(s, a.t);
    if Holding(s.pcs[t]) && Holding(s.pcs[a.t]) {
      HolderUnique(s, t, a.t);
    }
  }

  lemma DistinctAppend<T(!new)>(xs: seq<T>, x: T)
    requires Distinct(xs) && x !in xs
    ensures Distinct(xs + [x])
  {
  }

  lemma DistinctTail<T(!new)>(xs: seq<T>)
    requires Distinct(xs) && xs != []
    ensures xs[0] in xs && xs[0] !in xs[1..] && Distinct(xs[1..])
    ensures forall x <- xs[1..] :: x in xs
  {
  }

  lemma ConnectData(s: Pool, t: Tid)
    requires DataOk(s) && Enabled(s, Connect(t, true)) && s.cur < s.max
    ensures DataOk(Apply(s, Connect(t, true)))
  {
    var u, c := Apply(s, Connect(t, true)), Conn(s.made);
    assert c !in s.free;
    DistinctAppend(s.free, c);
    forall r: Ref | Made(u, r)
      ensures r in u.free || Lent(u, r)
    {
      if r == c {
        assert u.free[|s.free|] == c;
      } else {
        assert Made(s, r);
        if r in s.free {
          assert r in u.free;
        } else {
          var v: Tid :| Lease(v, r) in s.leases;
          assert Lease(v, r) in u.leases;
        }
      }
    }
  }

  lemma PopFree(s: Pool, t: Tid)
    requires FreeOk(s) && Enabled(s, Pop(t))
    ensures FreeOk(Apply(s, Pop(t)))
  {
    DistinctTail(s.free);
    forall r <- s.free[1..]
      ensures Made(Apply(s, Pop(t)), r)
    {
      assert Made(s, r);
    }
  }

  lemma PopLent(s: Pool, t: Tid)
    requires FreeOk(s) && LentOk(s) && Enabled(s, Pop(t))
    ensures LentOk(Apply(s, Pop(t)))
  {
    DistinctTail(s.free);
    assert Made(s, s.free[0]);
  }

  lemma PopNoneMissing(s: Pool, t: Tid)
    requires NoneMissing(s) && Enabled(s, Pop(t))
    ensures NoneMissing(Apply(s, Pop(t)))
  {
    var u, c := Apply(s, Pop(t)), s.free[0];
    assert Lease(t, c) in u.leases;
    forall r: Ref | Made(u, r)
      ensures r in u.free || Lent(u, r)
    {
      assert Made(s, r);
      if r in s.free {
        assert s.free == [c] + u.free;
      } else {
        var v: Tid :| Lease(v, r) in s.leases;
        assert Lease(v, r) in u.leases;
      }
    }
  }

  lemma PopData(s: Pool, t: Tid)
    requires DataOk(s) && Enabled(s, Pop(t))
    ensures DataOk(Apply(s, Pop(t)))
  {
    PopFree(s, t);
    PopLent(s, t);
    PopNoneMissing(s, t);
    assert Lease(t, s.free[0]) !in s.leases;
  }

  lemma PushData(s: Pool, t: Tid)
    requires DataOk(s) && Enabled(s, Push(t)) && Proper(s, Push(t))
    ensures DataOk(Apply(s, Push(t)))
  {
    var u, c := Apply(s, Push(t)), s.pcs[t].r;
    if c !in s.free {
      assert u.free[|s.free|] == c;
    }
    forall r: Ref | Made(u, r)
      ensures r in u.free || Lent(u, r)
    {
      assert Made(s, r);
      if r != c && r !in s.free {
        var v: Tid :| Lease(v, r) in s.leases;
        assert Lease(v, r) in u.leases;
      }
    }
  }

  /**
   Exactly what a caller of RelConn owes the pool: the push keeps the pool's books in order if and
   only if the connection is lent to the caller or is in the free list already.
   */
  lemma PushSafeIff(s: Pool, t: Tid)
    requires DataOk(s) && Enabled(s, Push(t))
    ensures DataOk(Apply(s, Push(t))) <==> Proper(s, Push(t))
  {
    if Proper(s, Push(t)) {
      PushData(s, t);
    } else {
      var u, c := Apply(s, Push(t)), s.pcs[t].r;
      assert u.free[|s.free|] == c && c in u.free;
      if Made(s, c) {
        var v: Tid :| Lease(v, c) in s.leases;
        assert Lease(v, c) in u.leases;
      }
    }
  }

  /** Handing a connection over to another thread moves its lease. */
  lemma HandOverLent(s: Pool, t: Tid, to: Tid, r: Ref)
    requires LentOk(s) && Enabled(s, HandOver(t, to, r))
    ensures LentOk(Apply(s, HandOver(t, to, r)))
  {
    var u := Apply(s, HandOver(t, to, r));
    assert Lease(t, r) in s.leases;
    forall l, m | l in u.leases && m in u.leases && l.r == m.r
      ensures l == m
    {
      assert l.r != r ==> l in s.leases && m in s.leases;
    }
  }

  lemma HandOverNoneMissing(s: Pool, t: Tid, to: Tid, r: Ref)
    requires NoneMissing(s) && Enabled(s, HandOver(t, to, r))
    ensures NoneMissing(Apply(s, HandOver(t, to, r)))
  {
    var u := Apply(s, HandOver(t, to, r));
    assert Lease(to, r) in u.leases;
    forall q: Ref | Made(u, q)
      ensures q in u.free || Lent(u, q)
    {
      assert Made(s, q);
      if q !in s.free && q != r {
        var v: Tid :| Lease(v, q) in s.leases;
        assert Lease(v, q) in u.leases;
      }
    }
  }

  lemma HandOverData(s: Pool, t: Tid, to: Tid, r: Ref)
    requires DataOk(s) && Enabled(s, HandOver(t, to, r))
    ensures DataOk(Apply(s, HandOver(t, to, r)))
  {
    HandOverLent(s, t, to, r);
    HandOverNoneMissing(s, t, to, r);
    assert to != t ==> Lease(to, r) !in s.leases;
  }

  lemma DataStep(s: Pool, a: Action)
    requires DataOk(s) && PointsOk(s) && Enabled(s, a) && Proper(s, a)
    ensures DataOk(Apply(s, a))
  {
    assert PointOk(s, a.t);
    match a
    case Connect(t, ok) =>
      if ok {
        ConnectData(s, t);
      } else {
        SameData(s, Apply(s, a));
      }
    case Pop(t) => PopData(s, t);
    case Push(t) => PushData(s, t);
    case HandOver(t, to, r) => HandOverData(s, t, to, r);
    case _ => SameData(s, Apply(s, a));
  }

  lemma SameData(s: Pool, u: Pool)
    requires DataOk(s) && |u.pcs| == |s.pcs| && u.free == s.free && u.leases == s.leases
    requires u.cur == s.cur && u.max == s.max && u.made == s.made && u.lost == s.lost
    ensures DataOk(u)
  {
    forall r: Ref | Made(u, r)
      ensures r in u.free || Lent(u, r)
    {
      assert Made(s, r);
      if r !in s.free {
        var v: Tid :| Lease(v, r) in s.leases;
        assert Lease(v, r) in u.leases;
      }
    }
  }

  /** A signal passes the signaller's claim on to somebody it wakes. */
  lemma SignalWakes(s: Pool, a: Action)
    requires MutexOk(s) && WakeOk(s) && Enabled(s, a) && a.Signal?
    ensures WakeOk(Apply(s, a))
  {
    var u, q := Apply(s, a), Wake(s.pcs, a.woken);
    if t: Tid :| t < |u.pcs| && u.pcs[t] == Asleep {
      assert s.pcs[t] == Asleep && t in Sleepers(s);
      var v :| v in a.woken;
      assert v in Sleepers(s);
      SumRousedOne(s.pcs, q, v, Claim);
      SumUpdate(q, a.t, RelUnlock, Claim);
    }
  }

  lemma WakeStep(s: Pool, a: Action)
    requires MutexOk(s) && PointsOk(s) && WakeOk(s) && Enabled(s, a)
    ensures WakeOk(Apply(s, a))
  {
    if a.Signal? {
      SignalWakes(s, a);
    } else {
      var u := Apply(s, a);
      assert PointOk(s, a.t);
      assert u.pcs == s.pcs[a.t := u.pcs[a.t]];
      SumUpdate(s.pcs, a.t, u.pcs[a.t], Claim);
      if t: Tid :| t < |u.pcs| && u.pcs[t] == Asleep {
        OtherSleeper(s, a, t);
      }
    }
  }

  /** What one thread's step does to the claims while another thread sleeps. */
  lemma OtherSleeper(s: Pool, a: Action, t: Tid)
    requires PointsOk(s) && WakeOk(s) && Enabled(s, a) && !a.Signal?
    requires t < |s.pcs| && Apply(s, a).pcs[t] == Asleep
    ensures |Apply(s, a).free| <= Sum(s.pcs, Claim) - Claim(s.pcs[a.t]) + Claim(Apply(s, a).pcs[a.t])
  {
    assert PointOk(s, a.t) && PointOk(s, t);
    SumAtLeast(s.pcs, a.t, Claim);
  }

  lemma StepKeepsInv(s: Pool, a: Action)
    requires Inv(s) && Enabled(s, a) && Proper(s, a)
    ensures Inv(Apply(s, a))
  {
    MutexStep(s, a);
    DataStep(s, a);
    forall t: Tid | t < |s.pcs|
      ensures PointOk(Apply(s, a), t)
    {
      PointStep(s, a, t);
    }
    WakeStep(s, a);
  }

  ghost predicate AllProper(s: Pool, acts: seq<Action>)
    requires CanRun(s, acts)
    decreases acts
  {
    acts == [] || (Proper(s, acts[0]) && AllProper(Apply(s, acts[0]), acts[1..]))
  }

  lemma {:induction false} RunKeepsInv(s: Pool, acts: seq<Action>)
    requires Inv(s) && CanRun(s, acts) && AllProper(s, acts)
    ensures Inv(RunFrom(s, acts))
    decreases acts
  {
    if acts != [] {
      StepKeepsInv(s, acts[0]);
      RunKeepsInv(Apply(s, acts[0]), acts[1..]);
    }
  }

  // ---- the main results, for any number of threads and any disciplined run

  /** Nothing is lent twice or lent while free, nothing is lost, and the maximum is respected. */
  lemma ConnectionsConserved(threads: nat, max: int, ok: bool, acts: seq<Action>)
    requires CanRun(Start(threads, max, ok), acts) && AllProper(Start(threads, max, ok), acts)
    ensures var s := RunFrom(Start(threads, max, ok), acts);
            && s.max == max && |s.free| + |s.leases| + (if ok then 0 else 1) == s.cur <= Cap(max)
            && (forall l, m :: l in s.leases && m in s.leases && l.r == m.r ==> l == m)
            && (forall l <- s.leases :: l.r.Conn? && l.r !in s.free)
            && Distinct(s.free)
            && forall id: nat :: id < s.made <==> Conn(id) in s.free || Lent(s, Conn(id))
  {
    var s := Start(threads, max, ok);
    StartOk(threads, max, ok);
    RunKeepsInv(s, acts);
    ConstantsKept(s, acts);
    var u := RunFrom(s, acts);
    forall id: nat
      ensures id < u.made <==> Conn(id) in u.free || Lent(u, Conn(id))
    {
      assert Made(u, Conn(id)) <==> id < u.made;
    }
  }

  lemma {:induction false} ConstantsKept(s: Pool, acts: seq<Action>)
    requires CanRun(s, acts)
    ensures var u := RunFrom(s, acts); u.lost == s.lost && u.max == s.max && |u.pcs| == |s.pcs|
    decreases acts
  {
    if acts != [] {
      ConstantsKept(Apply(s, acts[0]), acts[1..]);
    }
  }

  /**
   While any thread sleeps the pool is at its maximum, and the free connections are at most as many as
   the waiters woken and not finished and the threads that have released and not yet signalled.
   */
  lemma NoLostWakeup(threads: nat, max: int, ok: bool, acts: seq<Action>, t: Tid)
    requires CanRun(Start(threads, max, ok), acts) && AllProper(Start(threads, max, ok), acts)
    requires t < threads
    ensures var s := RunFrom(Start(threads, max, ok), acts);
            |s.pcs| == threads && (s.pcs[t] == Asleep ==> s.cur >= max && |s.free| <= Sum(s.pcs, Claim))
  {
    StartOk(threads, max, ok);
    RunKeepsInv(Start(threads, max, ok), acts);
    ConstantsKept(Start(threads, max, ok), acts);
    assert PointOk(RunFrom(Start(threads, max, ok), acts), t);
  }

  // ---- a discipline clients can follow

  /** Every call of RelConn passes a connection that is lent to the caller when it calls. */
  ghost predicate AllCareful(s: Pool, acts: seq<Action>)
    requires CanRun(s, acts)
    decreases acts
  {
    acts == [] ||
    ((acts[0].CallRel? ==> Lease(acts[0].t, acts[0].r) in s.leases) && AllCareful(Apply(s, acts[0]), acts[1..]))
  }

  /** What is being released is still lent to the releaser. */
  ghost predicate ReleasesLent(s: Pool) {
    forall t: Tid {:trigger s.pcs[t]} :: t < |s.pcs| && (s.pcs[t].RelLock? || s.pcs[t].RelPush?) ==>
      Lease(t, s.pcs[t].r) in s.leases
  }

  /** Releasing only what one holds is enough: nobody else can take it away before the push. */
  lemma {:induction false} CarefulIsProper(s: Pool, acts: seq<Action>)
    requires ReleasesLent(s) && CanRun(s, acts) && AllCareful(s, acts)
    ensures AllProper(s, acts)
    decreases acts
  {
    if acts != [] {
      var a, u := acts[0], Apply(s, acts[0]);
      assert s.pcs[a.t].RelPush? ==> Lease(a.t, s.pcs[a.t].r) in s.leases;
      forall t: Tid | t < |u.pcs| && (u.pcs[t].RelLock? || u.pcs[t].RelPush?)
        ensures Lease(t, u.pcs[t].r) in u.leases
      {
        assert t != a.t ==> u.pcs[t] == s.pcs[t];
        assert s.pcs[t].RelLock? || s.pcs[t].RelPush? ==> Lease(t, s.pcs[t].r) in s.leases;
      }
      CarefulIsProper(u, acts[1..]);
    }
  }

  /** Once everything is returned, the free list holds every connection ever made, once each. */
  lemma AllReturned(s: Pool)
    requires DataOk(s) && s.leases == {}
    ensures |s.free| == s.made && Distinct(s.free)
    ensures forall r: Ref :: r in s.free <==> Made(s, r)
  {
    forall r: Ref | Made(s, r)
      ensures r in s.free
    {
      assert !Lent(s, r);
    }
  }
}
