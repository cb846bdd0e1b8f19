/**
 The connection pool as a step system: any number of threads inside GetDBConn and RelConn, one
 mutex, one condition variable.  Every step is one action of one thread between two points where
 another thread could intervene; a client may start a call, or hand a connection over to another
 thread, whenever its thread is outside.
 */
module PoolMachine {

  type Tid = nat

  /** What GetDBConn returns and RelConn takes: NULL, or the `id`-th connection ever established. */
  datatype Ref = Null | Conn(id: nat)

  /** A recursive mutex: who holds it, and how many times over. */
  datatype Mutex = Unheld | Held(t: Tid, depth: nat)

  /**
   Where a thread is.  "Holding" below means holding the mutex; `waited` tells a waiter that has just
   taken the mutex back from a caller that has just come in.
   */
  datatype Pc =
    | Out               // outside the pool
    | GetLock           // in GetDBConn, about to lock
    | GetTest(waited: bool) // holding, about to test whether the free list is empty
    | GetLimit          // holding, list empty, about to compare the count with the maximum
    | GetWait           // holding, at the maximum, about to wait
    | Asleep            // waiting on the condition, mutex released
    | Woken             // awake again, has to take the mutex back
    | GetConnect        // holding, about to establish a connection
    | GetFail           // holding, connecting failed, about to unlock and return NULL
    | GetPop(waited: bool) // holding, list not empty, about to take its front
    | GetUnlock(r: Ref) // holding, about to unlock and return `r`
    | RelLock(r: Ref)   // in RelConn(r), about to lock
    | RelPush(r: Ref)   // holding, about to scan the list and append `r` unless it is there
    | RelSignal         // holding, about to signal
    | RelUnlock         // holding, about to unlock

  /** `r` is lent to thread `t`: handed out to it, or over to it by another thread, and not yet put back. */
  datatype Lease = Lease(t: Tid, r: Ref)

  /**
   `free`, `cur` and `max` are the fields of the pool.  `made` counts the connections established,
   `lost` is 1 if Init failed: the count starts at 1 whether or not there is a connection.
   */
  datatype Pool = Pool(
    mutex: Mutex, pcs: seq<Pc>,
    free: seq<Ref>, cur: int, max: int,
    leases: set<Lease>, made: nat, lost: nat)

  /** The pool after its constructor and Init, whose connection attempt succeeds or fails. */
  function Start(threads: nat, max: int, ok: bool): Pool {
    Pool(Unheld, seq(threads, _ => Out),
         if ok then [Conn(0)] else [], 1, max,
         {}, if ok then 1 else 0, if ok then 0 else 1)
  }

  datatype Action =
    | CallGet(t: Tid)
    | CallRel(t: Tid, r: Ref)
    | HandOver(t: Tid, to: Tid, r: Ref)
    | Lock(t: Tid)
    | Test(t: Tid)
    | Limit(t: Tid)
    | Sleep(t: Tid)
    | Spurious(t: Tid)
    | Connect(t: Tid, ok: bool)
    | Pop(t: Tid)
    | Push(t: Tid)
    | Signal(t: Tid, woken: set<Tid>)
    | Unlock(t: Tid)
  {
    /** A step of the pool's own code, as opposed to what clients do and to a spurious wakeup. */
    predicate Internal() {
      !CallGet? && !CallRel? && !HandOver? && !Spurious?
    }
  }

  predicate WantsLock(pc: Pc) {
    pc == GetLock || pc == Woken || pc.RelLock?
  }

  predicate AtUnlock(pc: Pc) {
    pc == GetFail || pc.GetUnlock? || pc == RelUnlock
  }

  /** The threads that wait on the condition. */
  function Sleepers(s: Pool): set<Tid> {
    set t | 0 <= t < |s.pcs| && s.pcs[t] == Asleep
  }

  /** When a step can be taken.  Signal wakes at least one sleeper if there is one, maybe more. */
  predicate Enabled(s: Pool, a: Action) {
    a.t < |s.pcs| &&
    var pc := s.pcs[a.t];
    match a
    case CallGet(_) => pc == Out
    case CallRel(_, _) => pc == Out
    case HandOver(t, to, r) => pc == Out && to < |s.pcs| && Lease(t, r) in s.leases
    case Lock(t) => WantsLock(pc) && (s.mutex == Unheld || s.mutex.t == t)
    case Test(_) => pc.GetTest?
    case Limit(_) => pc == GetLimit
    case Sleep(t) => pc == GetWait && s.mutex == Held(t, 1)
    case Spurious(_) => pc == Asleep
    case Connect(_, _) => pc == GetConnect
    case Pop(_) => pc.GetPop? && s.free != []
    case Push(_) => pc.RelPush?
    case Signal(_, woken) =>
      pc == RelSignal && woken <= Sleepers(s) && (woken == {} ==> Sleepers(s) == {})
    case Unlock(t) => AtUnlock(pc) && s.mutex.Held? && s.mutex.t == t && s.mutex.depth > 0
  }

  function AfterLock(pc: Pc): Pc {
    if pc.RelLock? then RelPush(pc.r) else GetTest(pc == Woken)
  }

  function Wake(pcs: seq<Pc>, woken: set<Tid>): (r: seq<Pc>)
    ensures |r| == |pcs|
  {
    seq(|pcs|, t requires 0 <= t < |pcs| => if t in woken then Woken else pcs[t])
  }

  function Apply(s: Pool, a: Action): Pool
    requires Enabled(s, a)
  {
    var pc := s.pcs[a.t];
    match a
    case CallGet(t) => s.(pcs := s.pcs[t := GetLock])
    case CallRel(t, r) => s.(pcs := s.pcs[t := RelLock(r)])
    case HandOver(t, to, r) => s.(leases := s.leases - {Lease(t, r)} + {Lease(to, r)})
    case Lock(t) =>
      s.(mutex := Held(t, if s.mutex.Held? then s.mutex.depth + 1 else 1), pcs := s.pcs[t := AfterLock(pc)])
    case Test(t) => s.(pcs := s.pcs[t := if s.free == [] then GetLimit else GetPop(pc.waited)])
    case Limit(t) => s.(pcs := s.pcs[t := if s.cur >= s.max then GetWait else GetConnect])
    case Sleep(t) => s.(mutex := Unheld, pcs := s.pcs[t := Asleep])
    case Spurious(t) => s.(pcs := s.pcs[t := Woken])
    case Connect(t, ok) =>
      if ok
      then s.(pcs := s.pcs[t := GetTest(false)], free := s.free + [Conn(s.made)], cur := s.cur + 1, made := s.made + 1)
      else s.(pcs := s.pcs[t := GetFail])
    case Pop(t) =>
      s.(pcs := s.pcs[t := GetUnlock(s.free[0])], free := s.free[1..], leases := s.leases + {Lease(t, s.free[0])})
    case Push(t) =>
      s.(pcs := s.pcs[t := RelSignal],
         free := if pc.r in s.free then s.free else s.free + [pc.r],
         leases := s.leases - {Lease(t, pc.r)})
    case Signal(t, woken) => s.(pcs := Wake(s.pcs, woken)[t := RelUnlock])
    case Unlock(t) =>
      s.(mutex := if s.mutex.depth == 1 then Unheld else Held(t, s.mutex.depth - 1), pcs := s.pcs[t := Out])
  }

  /** The actions can be taken one after the other. */
  predicate CanRun(s: Pool, acts: seq<Action>)
    decreases acts
  {
    acts == [] || (Enabled(s, acts[0]) && CanRun(Apply(s, acts[0]), acts[1..]))
  }

  function RunFrom(s: Pool, acts: seq<Action>): Pool
    requires CanRun(s, acts)
    decreases acts
  {
    if acts == [] then s else RunFrom(Apply(s, acts[0]), acts[1..])
  }

  // ---- first in, first out

  /** What a step appends to the free list, and what it takes from the front. */
  function Came(s: Pool, a: Action): seq<Ref>
    requires Enabled(s, a)
  {
    if a.Connect? && a.ok then [Conn(s.made)]
    else if a.Push? && s.pcs[a.t].r !in s.free then [s.pcs[a.t].r]
    else []
  }

  function Went(s: Pool, a: Action): seq<Ref>
    requires Enabled(s, a)
  {
    if a.Pop? then [s.free[0]] else []
  }

  /** The connections that enter the free list during a run, in order. */
  function Entered(s: Pool, acts: seq<Action>): seq<Ref>
    requires CanRun(s, acts)
    decreases acts
  {
    if acts == [] then [] else Came(s, acts[0]) + Entered(Apply(s, acts[0]), acts[1..])
  }

  /** The connections handed out during a run, in order. */
  function HandedOut(s: Pool, acts: seq<Action>): seq<Ref>
    requires CanRun(s, acts)
    decreases acts
  {
    if acts == [] then [] else Went(s, acts[0]) + HandedOut(Apply(s, acts[0]), acts[1..])
  }

  lemma StepFifo(s: Pool, a: Action)
    requires Enabled(s, a)
    ensures s.free + Came(s, a) == Went(s, a) + Apply(s, a).free
  {
  }

  lemma Regroup<T>(f: seq<T>, c: seq<T>, w: seq<T>, g: seq<T>, l: seq<T>, h: seq<T>, r: seq<T>)
    requires f + c == w + g && g + l == h + r
    ensures f + (c + l) == (w + h) + r
  {
    assert f + (c + l) == (f + c) + l == w + (g + l) == w + (h + r) == (w + h) + r;
  }

  /** Over any run at all, connections are handed out in the order they entered the free list. */
  lemma {:induction false} FirstInFirstOut(s: Pool, acts: seq<Action>)
    requires CanRun(s, acts)
    ensures s.free + Entered(s, acts) == HandedOut(s, acts) + RunFrom(s, acts).free
    decreases acts
  {
    if acts != [] {
      var a, u := acts[0], Apply(s, acts[0]);
      StepFifo(s, a);
      FirstInFirstOut(u, acts[1..]);
      Regroup(s.free, Came(s, a), Went(s, a), u.free,
              Entered(u, acts[1..]), HandedOut(u, acts[1..]), RunFrom(s, acts).free);
    }
  }

  // ---- sums over the threads

  function Sum(pcs: seq<Pc>, w: Pc -> nat): nat {
    if pcs == [] then 0 else w(pcs[0]) + Sum(pcs[1..], w)
  }

  lemma {:induction false} SumUpdate(pcs: seq<Pc>, t: Tid, pc: Pc, w: Pc -> nat)
    requires t < |pcs|
    ensures Sum(pcs[t := pc], w) == Sum(pcs, w) - w(pcs[t]) + w(pc)
  {
    if t == 0 {
      assert pcs[0 := pc][1..] == pcs[1..];
    } else {
      assert pcs[t := pc][1..] == pcs[1..][t - 1 := pc];
      SumUpdate(pcs[1..], t - 1, pc, w);
    }
  }

  lemma {:induction false} SumAtLeast(pcs: seq<Pc>, t: Tid, w: Pc -> nat)
    requires t < |pcs|
    ensures w(pcs[t]) <= Sum(pcs, w)
  {
    if t > 0 {
      SumAtLeast(pcs[1..], t - 1, w);
    }
  }

  /** `q` is `p` with some sleepers woken. */
  ghost predicate Roused(p: seq<Pc>, q: seq<Pc>) {
    |p| == |q| && forall t :: 0 <= t < |p| ==> q[t] == p[t] || (p[t] == Asleep && q[t] == Woken)
  }

  lemma Distribute(n: nat, d: nat)
    ensures (n + 1) * d == n * d + d
  {
  }

  /** Waking sleepers changes a sum by what each of them contributes. */
  lemma {:induction false} SumRoused(p: seq<Pc>, q: seq<Pc>, w: Pc -> nat)
    requires Roused(p, q) && w(Asleep) <= w(Woken)
    ensures Sum(p, w) <= Sum(q, w) <= Sum(p, w) + |p| * (w(Woken) - w(Asleep))
  {
    if p != [] {
      SumRoused(p[1..], q[1..], w);
      Distribute(|p[1..]|, w(Woken) - w(Asleep));
    }
  }

  lemma {:induction false} SumRousedOne(p: seq<Pc>, q: seq<Pc>, t: Tid, w: Pc -> nat)
    requires Roused(p, q) && w(Asleep) <= w(Woken)
    requires t < |p| && p[t] == Asleep && q[t] == Woken
    ensures Sum(p, w) + w(Woken) - w(Asleep) <= Sum(q, w)
  {
    if t == 0 {
      SumRoused(p[1..], q[1..], w);
    } else {
      SumRousedOne(p[1..], q[1..], t - 1, w);
    }
  }
}
