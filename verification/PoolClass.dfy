/**
 The pool's code.  GetDBConn and RelConn are written out statement by statement, including the waits
 at which other threads run; which steps those take is the scheduler's choice and an input.  Each
 statement is proved to be a step of the step system and each call to take effect as one indivisible
 operation.  The fields `pcs`, `leases`, `made` and `lost` keep the books of the step system.
 */
module PoolClass {
  import opened PoolMachine
  import opened PoolSafety
  import opened PoolProgress
  import opened PoolSections
  import opened PoolSchedule

  /** The mutex of a pool.  Who waits on the condition is in the program points of the threads. */
  class CThreadNotify {
    var m_mutex: Mutex

    constructor ()
      ensures m_mutex == Unheld
    {
      m_mutex := Unheld;
    }

    /** Tries to take the recursive mutex; a caller that does not get it is blocked and tries again. */
    method Lock(t: Tid) returns (got: bool)
      modifies this
      ensures got == (old(m_mutex) == Unheld || old(m_mutex).t == t)
      ensures m_mutex == if !got then old(m_mutex)
                         else Held(t, if old(m_mutex) == Unheld then 1 else old(m_mutex).depth + 1)
    {
      got := m_mutex == Unheld || m_mutex.t == t;
      if got {
        m_mutex := if m_mutex == Unheld then Held(t, 1) else Held(t, m_mutex.depth + 1);
      }
    }

    method UnLock(t: Tid)
      requires m_mutex.Held? && m_mutex.t == t && m_mutex.depth > 0
      modifies this
      ensures m_mutex == if old(m_mutex).depth == 1 then Unheld else Held(t, old(m_mutex).depth - 1)
    {
      m_mutex := if m_mutex.depth == 1 then Unheld else Held(t, m_mutex.depth - 1);
    }

    /** The first half of waiting; the second is to take the mutex back. */
    method Wait(t: Tid)
      requires m_mutex == Held(t, 1)
      modifies this
      ensures m_mutex == Unheld
    {
      m_mutex := Unheld;
    }
  }

  /** Every step is taken by another thread, or is `t` waking by chance. */
  ghost predicate OthersOnly(acts: seq<Action>, t: Tid) {
    forall a <- acts :: OfOthers(a, t)
  }

  lemma {:induction false} TurnOthers(s: Pool, t: Tid, turn: seq<Action>)
    ensures OthersOnly(Turn(s, t, turn), t)
    decreases turn
  {
    if turn != [] {
      if OfOthers(turn[0], t) && Enabled(s, turn[0]) {
        TurnOthers(Apply(s, turn[0]), t, turn[1..]);
      } else {
        TurnOthers(s, t, turn[1..]);
      }
    }
  }

  /** Thread `t` comes in and waits, and gains nothing by it. */
  ghost predicate OnlyWaits(acts: seq<Action>, t: Tid) {
    forall a <- acts :: a.t == t ==> a.CallGet? || a.Lock? || a.Test? || a.Limit? || a.Sleep? || a.Spurious?
  }

  ghost predicate OnlyEnters(acts: seq<Action>, t: Tid, conn: Ref) {
    forall a <- acts :: a.t == t ==> a == CallRel(t, conn) || a.Lock? || a.Spurious?
  }

  /** The mutex can be had, and a connection is free or may be added: a call need not wait. */
  predicate NoWait(s: Pool) {
    s.mutex == Unheld && (s.free != [] || s.cur < s.max)
  }

  function EnterGetSteps(t: Tid): seq<Action> {
    [CallGet(t), Lock(t)]
  }

  /** Thread `t` has come into GetDBConn and taken the mutex. */
  function Inside(s: Pool, t: Tid): Pool
    requires t < |s.pcs|
  {
    s.(mutex := Held(t, 1), pcs := s.pcs[t := GetTest(false)])
  }

  /** Thread `t` has come into RelConn with `conn` and taken the mutex. */
  function InsideWith(s: Pool, t: Tid, conn: Ref): Pool
    requires t < |s.pcs|
  {
    s.(mutex := Held(t, 1), pcs := s.pcs[t := RelPush(conn)])
  }

  // ---- the loop of GetDBConn, as seen from the state `u` in which the caller got the mutex

  /** `s` is the state at the head of the loop, right after testing the list; `added` if it has grown. */
  ghost predicate AtLoop(u: Pool, s: Pool, t: Tid, connects: bool, added: bool) {
    && t < |u.pcs| && u.pcs[t].GetTest? && u.mutex == Held(t, 1)
    && if added
       then connects && u.free == [] && u.cur < u.max &&
            s == u.(free := [Conn(u.made)], cur := u.cur + 1, made := u.made + 1, pcs := u.pcs[t := GetPop(false)])
       else s == Apply(u, Test(t))
  }

  function LoopSteps(t: Tid, added: bool): seq<Action> {
    if added then [Test(t), Limit(t), Connect(t, true), Test(t)] else [Test(t)]
  }

  lemma LoopStarts(u: Pool, t: Tid, connects: bool)
    requires t < |u.pcs| && u.pcs[t].GetTest? && u.mutex == Held(t, 1)
    ensures Enabled(u, Test(t)) && AtLoop(u, Apply(u, Test(t)), t, connects, false)
  {
  }

  lemma LoopLimit(u: Pool, s: Pool, t: Tid, connects: bool, added: bool)
    requires AtLoop(u, s, t, connects, added) && s.free == []
    ensures !added && u.free == [] && u.cur == s.cur && u.max == s.max
    ensures Enabled(s, Limit(t)) && t < |s.pcs|
    ensures var v := Apply(s, Limit(t));
            v.mutex == Held(t, 1) && v.pcs == s.pcs[t := if s.cur >= s.max then GetWait else GetConnect]
  {
  }

  lemma LoopGrows(u: Pool, s: Pool, t: Tid)
    requires AtLoop(u, s, t, true, false) && s.free == [] && s.cur < s.max && Enabled(s, Limit(t))
    ensures Enabled(Apply(s, Limit(t)), Connect(t, true))
    ensures var v := Apply(Apply(s, Limit(t)), Connect(t, true));
            && t < |v.pcs| && v.pcs[t].GetTest? && Enabled(v, Test(t)) && Apply(v, Test(t)).free != []
            && AtLoop(u, Apply(v, Test(t)), t, true, true)
  {
    UpdateTwice(u.pcs, t, GetLimit, GetConnect);
    UpdateTwice(u.pcs, t, GetConnect, GetTest(false));
    UpdateTwice(u.pcs, t, GetTest(false), GetPop(false));
  }

  lemma LoopFails(u: Pool, s: Pool, t: Tid)
    requires AtLoop(u, s, t, false, false) && s.free == [] && s.cur < s.max && Enabled(s, Limit(t))
    ensures Enabled(Apply(s, Limit(t)), Connect(t, false))
    ensures var v := Apply(Apply(s, Limit(t)), Connect(t, false));
            && v.mutex == Held(t, 1) && t < |v.pcs| && AtUnlock(v.pcs[t]) && Enabled(v, Unlock(t))
            && Apply(v, Unlock(t)).pcs == u.pcs[t := Out] && t < |u.pcs|
            && Apply(v, Unlock(t)) == GetResult(u, t, false)
    ensures GetSteps(u, t, false) == LoopSteps(t, false) + [Limit(t), Connect(t, false), Unlock(t)]
    ensures GetValue(u, false) == Null && u.cur < u.max
  {
    UpdateTwice(u.pcs, t, GetLimit, GetConnect);
    UpdateTwice(u.pcs, t, GetConnect, GetFail);
    UpdateTwice(u.pcs, t, GetFail, Out);
  }

  lemma LoopTakes(u: Pool, s: Pool, t: Tid, connects: bool, added: bool)
    requires AtLoop(u, s, t, connects, added) && s.free != []
    ensures t < |u.pcs| && u.pcs[t].GetTest? && u.mutex == Held(t, 1)
    ensures t < |s.pcs| && s.pcs[t].GetPop? && Enabled(s, Pop(t)) && Enabled(Apply(s, Pop(t)), Unlock(t))
    ensures var v := Apply(s, Pop(t)); v.mutex == Held(t, 1) && t < |v.pcs| && AtUnlock(v.pcs[t])
    ensures var v := Apply(Apply(s, Pop(t)), Unlock(t)); t < |v.pcs| && v.pcs[t] == Out
    ensures Apply(Apply(s, Pop(t)), Unlock(t)) == GetResult(u, t, connects)
    ensures s.free[0] == GetValue(u, connects) && (u.free != [] || u.cur < u.max)
    ensures GetSteps(u, t, connects) == LoopSteps(t, added) + [Pop(t), Unlock(t)]
  {
    UpdateTwice(u.pcs, t, s.pcs[t], GetUnlock(s.free[0]));
    UpdateTwice(u.pcs, t, GetUnlock(s.free[0]), Out);
  }

  class DBPool {
    var m_db_cur_conn_cnt: int
    const m_db_max_conn_cnt: int
    var m_free_list: seq<Ref>
    const m_free_notify: CThreadNotify
    var pcs: seq<Pc>
    var leases: set<Lease>
    var made: nat
    var lost: nat
    ghost var origin: Pool
    ghost var trace: seq<Action>

    /** The state is the one the steps recorded in `trace` lead to. */
    ghost predicate Valid()
      reads this, m_free_notify
    {
      Steps(origin, trace, Abs()) && MutexOk(Abs()) && PointsOk(Abs())
    }

    function Abs(): Pool
      reads this, m_free_notify
    {
      Pool(m_free_notify.m_mutex, pcs, m_free_list, m_db_cur_conn_cnt, m_db_max_conn_cnt, leases, made, lost)
    }

    /** Exactly the step `a` was taken. */
    twostate predicate Took(a: Action)
      reads this, m_free_notify
    {
      && Valid() && origin == old(origin) && trace == old(trace) + [a]
      && old(Enabled(Abs(), a)) && Abs() == Apply(old(Abs()), a)
    }

    /** The count starts at 1 although there is no connection yet. */
    constructor (max_conn: int, threads: nat)
      ensures Valid() && trace == [] && fresh(m_free_notify)
      ensures m_db_max_conn_cnt == max_conn && m_db_cur_conn_cnt == 1 && m_free_list == []
      ensures Abs() == Start(threads, max_conn, false)
    {
      m_db_cur_conn_cnt := 1;
      m_db_max_conn_cnt := max_conn;
      m_free_list := [];
      m_free_notify := new CThreadNotify();
      pcs, leases, made, lost, trace := seq(threads, _ => Out), {}, 0, 1, [];
      new;
      origin := Abs();
    }

    /** Establishes the first connection; `ret` is the result of the attempt, 0 for success. */
    method Init(ret: int) returns (r: int)
      requires trace == [] && Abs() == Start(|pcs|, m_db_max_conn_cnt, false)
      modifies this
      ensures r == ret && Valid() && trace == []
      ensures m_db_cur_conn_cnt == 1 && m_free_list == if ret == 0 then [Conn(0)] else []
      ensures origin == Abs() == Start(|old(pcs)|, m_db_max_conn_cnt, ret == 0)
    {
      origin := Abs();
      for i := 0 to 1
        invariant trace == [] && origin == Abs()
        invariant Abs() == Start(|old(pcs)|, m_db_max_conn_cnt, i == 1) && (i == 1 ==> ret == 0)
      {
        if ret != 0 {
          return ret;
        }
        m_free_list := m_free_list + [Conn(made)];
        made, lost := made + 1, 0;
        origin := Abs();
      }
      return 0;
    }

    // ---- single statements: each takes one step of the step system and records it

    /** Keeps the books of a step that has been, or is about to be, carried out. */
    ghost method Record(a: Action, s: Pool)
      requires Steps(origin, trace, s) && MutexOk(s) && PointsOk(s) && Enabled(s, a)
      modifies this`trace
      ensures trace == old(trace) + [a] && Steps(origin, trace, Apply(s, a))
      ensures MutexOk(Apply(s, a)) && PointsOk(Apply(s, a))
    {
      StepsSnoc(origin, trace, s, a);
      PointsStep(s, a);
      trace := trace + [a];
    }

    method Lock(t: Tid)
      requires Valid() && Enabled(Abs(), Action.Lock(t))
      modifies this`pcs, this`trace, m_free_notify
      ensures Took(Action.Lock(t))
    {
      Record(Action.Lock(t), Abs());
      var _ := m_free_notify.Lock(t);
      pcs := pcs[t := AfterLock(pcs[t])];
    }

    method UnLock(t: Tid)
      requires Valid() && Enabled(Abs(), Unlock(t))
      modifies this`pcs, this`trace, m_free_notify
      ensures Took(Unlock(t))
    {
      Record(Unlock(t), Abs());
      m_free_notify.UnLock(t);
      pcs := pcs[t := Out];
    }

    /** The first half of waiting: the mutex is released and the caller sleeps. */
    method FallAsleep(t: Tid)
      requires Valid() && Enabled(Abs(), Sleep(t))
      modifies this`pcs, this`trace, m_free_notify
      ensures Took(Sleep(t))
    {
      Record(Sleep(t), Abs());
      m_free_notify.Wait(t);
      pcs := pcs[t := Asleep];
    }

    method ListEmpty(t: Tid) returns (empty: bool)
      requires Valid() && Enabled(Abs(), Test(t))
      modifies this`pcs, this`trace
      ensures Took(Test(t)) && empty == (m_free_list == [])
    {
      Record(Test(t), Abs());
      empty := m_free_list == [];
      pcs := pcs[t := if empty then GetLimit else GetPop(pcs[t].waited)];
    }

    method AtLimit(t: Tid) returns (full: bool)
      requires Valid() && Enabled(Abs(), Limit(t))
      modifies this`pcs, this`trace
      ensures Took(Limit(t)) && full == (m_db_cur_conn_cnt >= m_db_max_conn_cnt)
    {
      Record(Limit(t), Abs());
      full := m_db_cur_conn_cnt >= m_db_max_conn_cnt;
      pcs := pcs[t := if full then GetWait else GetConnect];
    }

    /** A new connection, which `connects` or not; only one that does is listed and counted. */
    method NewConn(t: Tid, connects: bool)
      requires Valid() && Enabled(Abs(), Connect(t, connects))
      modifies this
      ensures Took(Connect(t, connects))
    {
      Record(Connect(t, connects), Abs());
      if !connects {
        pcs := pcs[t := GetFail];
        return;
      }
      m_free_list := m_free_list + [Conn(made)];
      m_db_cur_conn_cnt := m_db_cur_conn_cnt + 1;
      made := made + 1;
      pcs := pcs[t := GetTest(false)];
    }

    method TakeFront(t: Tid) returns (pconn: Ref)
      requires Valid() && Enabled(Abs(), Pop(t))
      modifies this
      ensures Took(Pop(t)) && pconn == old(m_free_list)[0]
    {
      Record(Pop(t), Abs());
      pconn := m_free_list[0];
      m_free_list := m_free_list[1..];
      leases := leases + {Lease(t, pconn)};
      pcs := pcs[t := GetUnlock(pconn)];
    }

    /** Scans the list for the connection and appends it if it is not there. */
    method PutBack(t: Tid, conn: Ref)
      requires Valid() && Enabled(Abs(), Push(t)) && pcs[t] == RelPush(conn)
      modifies this
      ensures Took(Push(t))
      ensures m_free_list == old(m_free_list) + if conn in old(m_free_list) then [] else [conn]
    {
      Record(Push(t), Abs());
      var it := 0;
      while it < |m_free_list| && m_free_list[it] != conn
        invariant it <= |m_free_list|
        invariant conn !in m_free_list[..it]
      {
        it := it + 1;
      }
      if it == |m_free_list| {
        assert m_free_list[..it] == m_free_list;
        m_free_list := m_free_list + [conn];
      }
      leases := leases - {Lease(t, conn)};
      pcs := pcs[t := RelSignal];
    }

    /** Which sleepers the signal wakes, at least one if there is any, is up to the scheduler. */
    method Signal(t: Tid, woken: set<Tid>)
      requires Valid() && Enabled(Abs(), Action.Signal(t, woken))
      modifies this`pcs, this`trace
      ensures Took(Action.Signal(t, woken))
    {
      Record(Action.Signal(t, woken), Abs());
      pcs := Wake(pcs, woken)[t := RelUnlock];
    }

    /** What clients do, and waking by chance: only the books change. */
    method Outside(a: Action)
      requires Valid() && Enabled(Abs(), a) && !a.Internal()
      modifies this`pcs, this`leases, this`trace
      ensures Took(a)
    {
      Record(a, Abs());
      match a
      case CallGet(t) => pcs := pcs[t := GetLock];
      case CallRel(t, r) => pcs := pcs[t := RelLock(r)];
      case Spurious(t) => pcs := pcs[t := Woken];
      case HandOver(t, to, r) => leases := leases - {Lease(t, r)} + {Lease(to, r)};
    }

    /** Any step whatever, carried out by the statement it stands for. */
    method Perform(a: Action)
      requires Valid() && Enabled(Abs(), a)
      modifies this, m_free_notify
      ensures Took(a)
    {
      match a
      case Lock(t) => Lock(t);
      case Test(t) => var _ := ListEmpty(t);
      case Limit(t) => var _ := AtLimit(t);
      case Sleep(t) => FallAsleep(t);
      case Connect(t, ok) => NewConn(t, ok);
      case Pop(t) => var _ := TakeFront(t);
      case Push(t) => PutBack(t, pcs[t].r);
      case Signal(t, woken) => Signal(t, woken);
      case Unlock(t) => UnLock(t);
      case _ => Outside(a);
    }

    // ---- waiting

    /** One step of the others, if it can be taken. */
    method Offer(t: Tid, a: Action) returns (taken: bool)
      requires Valid()
      modifies this, m_free_notify
      ensures taken == (OfOthers(a, t) && old(Enabled(Abs(), a)))
      ensures Valid() && origin == old(origin) && trace == old(trace) + if taken then [a] else []
      ensures Abs() == if taken then Apply(old(Abs()), a) else old(Abs())
    {
      taken := OfOthers(a, t) && Enabled(Abs(), a);
      if taken {
        Perform(a);
      }
    }

    /** The other threads' turn, while `t` is blocked or asleep: those of the steps that can be taken. */
    method Others(t: Tid, turn: seq<Action>) returns (ghost did: seq<Action>)
      requires Valid() && t < |pcs| && Blocked(Abs(), t)
      modifies this, m_free_notify
      ensures Valid() && origin == old(origin) && trace == old(trace) + did
      ensures did == Turn(old(Abs()), t, turn) && Abs() == AfterTurn(old(Abs()), t, turn)
      ensures Stays(old(Abs()), Abs(), t) && OthersOnly(did, t)
    {
      ghost var s := Abs();
      TurnKeeps(s, t, turn);
      TurnOthers(s, t, turn);
      TurnNone(s, t);
      hide Valid, Stays, Turn, AfterTurn, Enabled, Apply, OfOthers;
      did := [];
      for i := 0 to |turn|
        invariant Valid() && origin == old(origin) && trace == old(trace) + did
        invariant did == Turn(s, t, turn[..i]) && Abs() == AfterTurn(s, t, turn[..i])
      {
        TurnSnoc(s, t, turn[..i], turn[i]);
        assert turn[..i + 1] == turn[..i] + [turn[i]];
        var taken := Offer(t, turn[i]);
        did := did + if taken then [turn[i]] else [];
      }
      assert turn[..|turn|] == turn;
    }

    /** The steps so far and those that `turns` still hold in store make up `plan`. */
    ghost predicate OnPlan(t: Tid, luck: Luck, turns: seq<seq<Action>>, plan: seq<Action>)
      reads this, m_free_notify
    {
      Valid() && t < |pcs| && trace + Play(Abs(), t, luck, turns) == plan
    }

    /** What `t` does next by plan; the step has been taken since the state `s` and the trace `before`. */
    lemma Followed(a: Action, before: seq<Action>, s: Pool, t: Tid, luck: Luck, turns: seq<seq<Action>>,
                   plan: seq<Action>)
      requires Valid() && MutexOk(s) && PointsOk(s) && CanMove(s, t, luck) && NextStep(s, t, luck) == a
      requires before + Play(s, t, luck, turns) == plan && trace == before + [a] && Abs() == Apply(s, a)
      ensures OnPlan(t, luck, turns, plan)
    {
      PlanOwn(before, s, t, luck, turns, plan);
    }

    /** Locking: blocked until the mutex can be had, or until the schedule ends. */
    method Acquire(t: Tid, turns: seq<seq<Action>>, k0: nat, ghost luck: Luck, ghost plan: seq<Action>)
      returns (got: bool, k: nat, ghost did: seq<Action>)
      requires k0 <= |turns| && OnPlan(t, luck, turns[k0..], plan) && WantsLock(pcs[t])
      modifies this, m_free_notify
      ensures origin == old(origin) && OthersOnly(did, t) && k0 <= k <= |turns|
      ensures OnPlan(t, luck, turns[k..], plan)
      ensures got ==> trace == old(trace) + did + [Action.Lock(t)]
      ensures got ==> m_free_notify.m_mutex == Held(t, 1) && pcs[t] == AfterLock(old(pcs[t]))
      ensures !got ==> trace == old(trace) + did && pcs[t] == old(pcs[t]) && k == |turns| && Blocked(Abs(), t)
      ensures old(m_free_notify.m_mutex) == Unheld ==> got && did == [] && Took(Action.Lock(t))
    {
      hide Valid, Play, Apply, Enabled, Blocked, Stays;
      k, did := k0, [];
      while m_free_notify.m_mutex.Held?
        invariant origin == old(origin) && trace == old(trace) + did && OthersOnly(did, t)
        invariant k0 <= k <= |turns| && OnPlan(t, luck, turns[k..], plan) && pcs[t] == old(pcs[t])
        invariant old(m_free_notify.m_mutex) == Unheld ==> did == [] && Abs() == old(Abs()) && trace == old(trace)
        decreases |turns| - k
      {
        KeptOut(t);
        if k == |turns| {
          return false, k, did;
        }
        ghost var more;
        more := StayOut(t, turns, k, luck, plan);
        k, did := k + 1, did + more;
      }
      LockNext(t, turns, k, luck, plan);
      return true, k, did;
    }

    /** A caller that wants a mutex that is held does not hold it itself. */
    lemma KeptOut(t: Tid)
      requires Valid() && t < |pcs| && WantsLock(pcs[t]) && m_free_notify.m_mutex.Held?
      ensures Blocked(Abs(), t)
    {
      assert Holding(pcs[t]) <==> Abs().mutex == Held(t, 1);
    }

    /** One turn of the others, by plan. */
    method TakeTurn(t: Tid, turns: seq<seq<Action>>, k: nat, ghost luck: Luck, ghost plan: seq<Action>)
      returns (ghost did: seq<Action>)
      requires k < |turns| && OnPlan(t, luck, turns[k..], plan) && Blocked(Abs(), t)
      modifies this, m_free_notify
      ensures origin == old(origin) && trace == old(trace) + did && OthersOnly(did, t)
      ensures OnPlan(t, luck, turns[k + 1..], plan) && Stays(old(Abs()), Abs(), t)
    {
      hide Stays;
      PlanTurn(trace, Abs(), t, luck, turns, k, plan);
      did := Others(t, turns[k]);
    }

    /** A turn of the others while the caller is kept from the mutex; it stays where it is. */
    method StayOut(t: Tid, turns: seq<seq<Action>>, k: nat, ghost luck: Luck, ghost plan: seq<Action>)
      returns (ghost did: seq<Action>)
      requires k < |turns| && OnPlan(t, luck, turns[k..], plan) && Blocked(Abs(), t) && WantsLock(pcs[t])
      modifies this, m_free_notify
      ensures origin == old(origin) && trace == old(trace) + did && OthersOnly(did, t)
      ensures OnPlan(t, luck, turns[k + 1..], plan) && pcs[t] == old(pcs[t])
    {
      did := TakeTurn(t, turns, k, luck, plan);
    }

    /** Takes the free mutex, by plan. */
    method LockNext(t: Tid, ghost turns: seq<seq<Action>>, ghost k: nat, ghost luck: Luck, ghost plan: seq<Action>)
      requires k <= |turns| && OnPlan(t, luck, turns[k..], plan)
      requires WantsLock(pcs[t]) && m_free_notify.m_mutex == Unheld
      modifies this`pcs, this`trace, m_free_notify
      ensures Took(Action.Lock(t)) && OnPlan(t, luck, turns[k..], plan)
      ensures m_free_notify.m_mutex == Held(t, 1) && pcs[t] == AfterLock(old(pcs[t]))
    {
      ghost var s, before := Abs(), trace;
      Lock(t);
      Followed(Action.Lock(t), before, s, t, luck, turns[k..], plan);
    }

    /** Waiting: releases the mutex and sleeps, and once woken takes the mutex back. */
    method Wait(t: Tid, turns: seq<seq<Action>>, k0: nat, ghost luck: Luck, ghost plan: seq<Action>)
      returns (back: bool, k: nat, ghost did: seq<Action>)
      requires k0 <= |turns| && OnPlan(t, luck, turns[k0..], plan)
      requires pcs[t] == GetWait && m_free_notify.m_mutex == Held(t, 1)
      modifies this, m_free_notify
      ensures origin == old(origin) && OthersOnly(did, t) && k0 <= k <= |turns|
      ensures OnPlan(t, luck, turns[k..], plan)
      ensures back ==> trace == old(trace) + [Sleep(t)] + did + [Action.Lock(t)] && k0 < k
      ensures back ==> m_free_notify.m_mutex == Held(t, 1) && pcs[t] == GetTest(true)
      ensures !back ==> trace == old(trace) + [Sleep(t)] + did && k == |turns| && Blocked(Abs(), t)
      ensures !back ==> pcs[t] == Asleep || pcs[t] == Woken
    {
      hide Valid, Play, Apply, Enabled, Stays;
      SleepNext(t, turns, k0, luck, plan);
      k, did := k0, [];
      while pcs[t] == Asleep
        invariant origin == old(origin) && trace == old(trace) + [Sleep(t)] + did && OthersOnly(did, t)
        invariant k0 <= k <= |turns| && OnPlan(t, luck, turns[k..], plan)
        invariant pcs[t] == Asleep || (pcs[t] == Woken && k0 < k)
        decreases |turns| - k
      {
        if k == |turns| {
          return false, k, did;
        }
        ghost var more;
        more := SleepOn(t, turns, k, luck, plan);
        k, did := k + 1, did + more;
      }
      ghost var more;
      back, k, more := Acquire(t, turns, k, luck, plan);
      did := did + more;
    }

    method SleepNext(t: Tid, ghost turns: seq<seq<Action>>, ghost k: nat, ghost luck: Luck, ghost plan: seq<Action>)
      requires k <= |turns| && OnPlan(t, luck, turns[k..], plan)
      requires pcs[t] == GetWait && m_free_notify.m_mutex == Held(t, 1)
      modifies this`pcs, this`trace, m_free_notify
      ensures Took(Sleep(t)) && OnPlan(t, luck, turns[k..], plan) && pcs[t] == Asleep
    {
      ghost var s, before := Abs(), trace;
      FallAsleep(t);
      Followed(Sleep(t), before, s, t, luck, turns[k..], plan);
    }

    /** A turn of the others while the caller is asleep; it may wake it. */
    method SleepOn(t: Tid, turns: seq<seq<Action>>, k: nat, ghost luck: Luck, ghost plan: seq<Action>)
      returns (ghost did: seq<Action>)
      requires k < |turns| && OnPlan(t, luck, turns[k..], plan) && pcs[t] == Asleep
      modifies this, m_free_notify
      ensures origin == old(origin) && trace == old(trace) + did && OthersOnly(did, t)
      ensures OnPlan(t, luck, turns[k + 1..], plan) && (pcs[t] == Asleep || pcs[t] == Woken)
    {
      did := TakeTurn(t, turns, k, luck, plan);
    }

    // ---- the statements once more, by plan

    /** The test of the list. */
    method TestNext(t: Tid, ghost luck: Luck, ghost rest: seq<seq<Action>>, ghost plan: seq<Action>)
      returns (empty: bool)
      requires OnPlan(t, luck, rest, plan) && pcs[t].GetTest?
      modifies this`pcs, this`trace
      ensures Took(Test(t)) && OnPlan(t, luck, rest, plan) && empty == (m_free_list == [])
    {
      ghost var s, before := Abs(), trace;
      empty := ListEmpty(t);
      Followed(Test(t), before, s, t, luck, rest, plan);
    }

    /** The comparison of the count with the maximum. */
    method LimitNext(t: Tid, ghost luck: Luck, ghost rest: seq<seq<Action>>, ghost plan: seq<Action>)
      returns (full: bool)
      requires OnPlan(t, luck, rest, plan) && pcs[t] == GetLimit
      modifies this`pcs, this`trace
      ensures Took(Limit(t)) && OnPlan(t, luck, rest, plan)
      ensures full == (m_db_cur_conn_cnt >= m_db_max_conn_cnt)
    {
      ghost var s, before := Abs(), trace;
      full := AtLimit(t);
      Followed(Limit(t), before, s, t, luck, rest, plan);
    }

    /** The attempt at a connection. */
    method ConnectNext(t: Tid, connects: bool, ghost luck: Luck, ghost rest: seq<seq<Action>>, ghost plan: seq<Action>)
      requires OnPlan(t, luck, rest, plan) && pcs[t] == GetConnect && luck.connects == connects
      modifies this
      ensures Took(Connect(t, connects)) && OnPlan(t, luck, rest, plan)
    {
      ghost var s, before := Abs(), trace;
      NewConn(t, connects);
      Followed(Connect(t, connects), before, s, t, luck, rest, plan);
    }

    /** The front of the list. */
    method PopNext(t: Tid, ghost luck: Luck, ghost rest: seq<seq<Action>>, ghost plan: seq<Action>) returns (pconn: Ref)
      requires OnPlan(t, luck, rest, plan) && pcs[t].GetPop? && m_free_list != []
      modifies this
      ensures Took(Pop(t)) && OnPlan(t, luck, rest, plan) && pconn == old(m_free_list)[0]
    {
      ghost var s, before := Abs(), trace;
      pconn := TakeFront(t);
      Followed(Pop(t), before, s, t, luck, rest, plan);
    }

    /** The scan of the list, and the append. */
    method PushNext(t: Tid, conn: Ref, ghost luck: Luck, ghost rest: seq<seq<Action>>, ghost plan: seq<Action>)
      requires OnPlan(t, luck, rest, plan) && pcs[t] == RelPush(conn)
      modifies this
      ensures Took(Push(t)) && OnPlan(t, luck, rest, plan)
    {
      ghost var s, before := Abs(), trace;
      PutBack(t, conn);
      Followed(Push(t), before, s, t, luck, rest, plan);
    }

    /** Leaving. */
    method UnlockNext(t: Tid, ghost luck: Luck, ghost rest: seq<seq<Action>>, ghost plan: seq<Action>)
      requires OnPlan(t, luck, rest, plan) && AtUnlock(pcs[t]) && m_free_notify.m_mutex == Held(t, 1)
      modifies this`pcs, this`trace, m_free_notify
      ensures Took(Unlock(t)) && OnPlan(t, luck, rest, plan)
    {
      ghost var s, before := Abs(), trace;
      UnLock(t);
      Followed(Unlock(t), before, s, t, luck, rest, plan);
    }

    /** The signal; whom it wakes is the scheduler's choice. */
    method SignalNext(t: Tid, pick: set<Tid>, ghost luck: Luck, ghost rest: seq<seq<Action>>, ghost plan: seq<Action>)
      returns (woken: set<Tid>)
      requires OnPlan(t, luck, rest, plan) && pcs[t] == RelSignal && luck.pick == pick
      modifies this`pcs, this`trace
      ensures woken == old(Chosen(Abs(), pick)) && Took(Action.Signal(t, woken)) && OnPlan(t, luck, rest, plan)
    {
      ghost var s, before := Abs(), trace;
      woken := Chosen(Abs(), pick);
      Signal(t, woken);
      Followed(Action.Signal(t, woken), before, s, t, luck, rest, plan);
    }

    // ---- the two calls

    /** The call that started with the trace `start` has waited, got the mutex in `u`, and is at its loop. */
    ghost predicate InLoop(start: seq<Action>, before: seq<Action>, u: Pool, t: Tid, connects: bool, added: bool)
      reads this, m_free_notify
    {
      && Valid() && OnlyWaits(before, t) && Steps(origin, start + before, u)
      && AtLoop(u, Abs(), t, connects, added) && trace == start + before + LoopSteps(t, added)
    }

    /** The call has returned `conn`: it took effect in `u` as the indivisible operation. */
    ghost predicate Returned(start: seq<Action>, before: seq<Action>, u: Pool, t: Tid, connects: bool, conn: Ref)
      reads this, m_free_notify
    {
      && Valid() && OnlyWaits(before, t) && Steps(origin, start + before, u)
      && t < |u.pcs| && u.pcs[t].GetTest? && u.mutex == Held(t, 1) && (u.free != [] || u.cur < u.max)
      && trace == start + before + GetSteps(u, t, connects)
      && Abs() == GetResult(u, t, connects) && conn == GetValue(u, connects)
    }

    /** The call is still under way: it has only waited so far, and is asleep or kept from the mutex. */
    ghost predicate Waiting(start: seq<Action>, before: seq<Action>, t: Tid)
      reads this, m_free_notify
    {
      Valid() && OnlyWaits(before, t) && trace == start + before && Blocked(Abs(), t)
    }

    /** A client's call: what is to come is given by the schedule. */
    method Begin(call: Action, ghost luck: Luck, ghost turns: seq<seq<Action>>)
      requires Valid() && Enabled(Abs(), call) && (call.CallGet? || call.CallRel?)
      modifies this`pcs, this`leases, this`trace
      ensures Took(call)
      ensures OnPlan(call.t, luck, turns, old(trace) + CallPlan(old(Abs()), call, luck, turns))
    {
      PlanBegins(trace, Abs(), call, luck, turns);
      hide Play, CallPlan, Apply, MutexOk, PointsOk, Enabled;
      Outside(call);
    }

    /** Comes in, and takes the mutex. */
    method Enter(t: Tid, turns: seq<seq<Action>>, ghost luck: Luck, ghost plan: seq<Action>)
      returns (got: bool, k: nat, ghost before: seq<Action>)
      requires Valid() && t < |pcs| && pcs[t] == Out
      requires plan == trace + CallPlan(Abs(), CallGet(t), luck, turns)
      modifies this, m_free_notify
      ensures Valid() && origin == old(origin) && k <= |turns| && OnPlan(t, luck, turns[k..], plan)
      ensures trace == old(trace) + before && OnlyWaits(before, t) && t < |pcs|
      ensures pcs[t] == if got then GetTest(false) else GetLock
      ensures if got then m_free_notify.m_mutex == Held(t, 1) else Blocked(Abs(), t) && k == |turns|
      ensures old(m_free_notify.m_mutex) == Unheld ==>
                got && before == EnterGetSteps(t) && Abs() == Inside(old(Abs()), t)
    {
      hide Play, Enabled;
      ghost var s := Abs();
      CallEnabled(s, t);
      Begin(CallGet(t), luck, turns);
      assert turns[0..] == turns;
      ghost var did;
      got, k, did := Acquire(t, turns, 0, luck, plan);
      before := [CallGet(t)] + did + if got then [Action.Lock(t)] else [];
      UpdateTwice(s.pcs, t, GetLock, GetTest(false));
    }

    lemma CallEnabled(s: Pool, t: Tid)
      requires t < |s.pcs| && s.pcs[t] == Out
      ensures Enabled(s, CallGet(t)) && forall r: Ref :: Enabled(s, CallRel(t, r))
    {
    }

    /** The test of the list that a thread makes after getting the mutex. */
    method FirstTest(t: Tid, ghost start: seq<Action>, ghost before: seq<Action>, ghost connects: bool,
                     ghost luck: Luck, ghost rest: seq<seq<Action>>, ghost plan: seq<Action>)
      returns (empty: bool, ghost u: Pool)
      requires OnPlan(t, luck, rest, plan) && trace == start + before && OnlyWaits(before, t)
      requires pcs[t].GetTest? && m_free_notify.m_mutex == Held(t, 1)
      modifies this, m_free_notify
      ensures origin == old(origin) && u == old(Abs()) && OnPlan(t, luck, rest, plan)
      ensures InLoop(start, before, u, t, connects, false) && empty == (m_free_list == [])
    {
      u := Abs();
      assert Steps(origin, start + before, u);
      LoopStarts(u, t, connects);
      hide Valid, Play, Apply, Enabled;
      empty := TestNext(t, luck, rest, plan);
    }

    /** The limit test, from the head of the loop. */
    method LimitReached(t: Tid, ghost start: seq<Action>, ghost before: seq<Action>, ghost u: Pool,
                        ghost connects: bool, ghost added: bool,
                        ghost luck: Luck, ghost rest: seq<seq<Action>>, ghost plan: seq<Action>)
      returns (full: bool)
      requires InLoop(start, before, u, t, connects, added) && m_free_list == [] && OnPlan(t, luck, rest, plan)
      modifies this, m_free_notify
      ensures Valid() && origin == old(origin) && !added && Took(Limit(t)) && OnPlan(t, luck, rest, plan)
      ensures full == (old(m_db_cur_conn_cnt) >= m_db_max_conn_cnt)
      ensures u.free == [] && full == (u.cur >= u.max)
      ensures t < |pcs| && pcs[t] == (if full then GetWait else GetConnect) && m_free_notify.m_mutex == Held(t, 1)
      ensures OnlyWaits(before, t) && Steps(origin, start + before, u)
      ensures AtLoop(u, old(Abs()), t, connects, false) && Enabled(old(Abs()), Limit(t))
      ensures Abs() == Apply(old(Abs()), Limit(t)) && trace == start + before + LoopSteps(t, false) + [Limit(t)]
      ensures trace == start + before + [Test(t), Limit(t)]
    {
      LoopLimit(u, Abs(), t, connects, added);
      full := LimitNext(t, luck, rest, plan);
    }

    /** At the limit: waits and, once back, tests the list again. */
    method WaitAndTest(t: Tid, turns: seq<seq<Action>>, k0: nat,
                       ghost start: seq<Action>, ghost before0: seq<Action>, ghost connects: bool,
                       ghost luck: Luck, ghost plan: seq<Action>)
      returns (back: bool, k: nat, empty: bool, ghost before: seq<Action>, ghost u: Pool)
      requires k0 <= |turns| && OnPlan(t, luck, turns[k0..], plan)
      requires trace == start + before0 + [Test(t), Limit(t)] && OnlyWaits(before0, t)
      requires pcs[t] == GetWait && m_free_notify.m_mutex == Held(t, 1)
      modifies this, m_free_notify
      ensures origin == old(origin) && k <= |turns| && OnPlan(t, luck, turns[k..], plan)
      ensures back ==> k0 < k && InLoop(start, before, u, t, connects, false) && empty == (m_free_list == [])
      ensures !back ==> k == |turns| && Waiting(start, before, t) && Blocked(Abs(), t)
    {
      hide Valid, AtLoop, Apply, Enabled, Play, Blocked;
      ghost var more;
      back, k, more := Wait(t, turns, k0, luck, plan);
      before := before0 + [Test(t), Limit(t), Sleep(t)] + more + if back then [Action.Lock(t)] else [];
      empty, u := true, Abs();
      if back {
        empty, u := FirstTest(t, start, before, connects, luck, turns[k..], plan);
      }
    }

    /** Below the limit: a new connection, which is listed, or else the call fails and returns. */
    method GrowOrFail(t: Tid, connects: bool,
                      ghost start: seq<Action>, ghost before: seq<Action>, ghost u: Pool, ghost s: Pool,
                      ghost luck: Luck, ghost rest: seq<seq<Action>>, ghost plan: seq<Action>)
      requires OnPlan(t, luck, rest, plan) && OnlyWaits(before, t) && Steps(origin, start + before, u)
      requires AtLoop(u, s, t, connects, false) && s.free == [] && s.cur < s.max && luck.connects == connects
      requires Enabled(s, Limit(t)) && Abs() == Apply(s, Limit(t)) && pcs[t] == GetConnect
      requires m_free_notify.m_mutex == Held(t, 1) && trace == start + before + LoopSteps(t, false) + [Limit(t)]
      modifies this, m_free_notify
      ensures origin == old(origin) && OnPlan(t, luck, rest, plan)
      ensures if connects
              then InLoop(start, before, u, t, connects, true) && m_free_list != []
              else Returned(start, before, u, t, connects, Null) && pcs[t] == Out
    {
      hide Valid, Apply, Enabled, GetResult, GetSteps, GetValue, Play;
      if connects {
        LoopGrows(u, s, t);
      } else {
        LoopFails(u, s, t);
      }
      ConnectNext(t, connects, luck, rest, plan);
      if !connects {
        UnlockNext(t, luck, rest, plan);
        return;
      }
      var _ := TestNext(t, luck, rest, plan);
    }

    /** Behind the loop: takes the front of the list and leaves with it. */
    method TakeAndLeave(t: Tid, ghost connects: bool,
                        ghost start: seq<Action>, ghost before: seq<Action>, ghost u: Pool, ghost added: bool,
                        ghost luck: Luck, ghost rest: seq<seq<Action>>, ghost plan: seq<Action>)
      returns (pconn: Ref)
      requires InLoop(start, before, u, t, connects, added) && m_free_list != [] && OnPlan(t, luck, rest, plan)
      modifies this, m_free_notify
      ensures origin == old(origin) && Returned(start, before, u, t, connects, pconn)
      ensures OnPlan(t, luck, rest, plan) && pcs[t] == Out
    {
      hide Valid, Apply, Enabled, GetResult, GetSteps, GetValue, LoopSteps, Play, AtLoop;
      LoopTakes(u, Abs(), t, connects, added);
      pconn := PopNext(t, luck, rest, plan);
      UnlockNext(t, luck, rest, plan);
    }

    /** GetDBConn once the mutex is held: its loop, and what follows. */
    method LoopAndLeave(t: Tid, connects: bool, turns: seq<seq<Action>>, k0: nat,
                        ghost start: seq<Action>, ghost before0: seq<Action>, ghost luck: Luck, ghost plan: seq<Action>)
      returns (done: bool, conn: Ref, ghost before: seq<Action>, ghost u: Pool)
      requires k0 <= |turns| && OnPlan(t, luck, turns[k0..], plan) && luck.connects == connects
      requires trace == start + before0 && OnlyWaits(before0, t)
      requires pcs[t].GetTest? && m_free_notify.m_mutex == Held(t, 1)
      modifies this, m_free_notify
      ensures Valid() && origin == old(origin) && trace == plan
      ensures if done then Returned(start, before, u, t, connects, conn) else Waiting(start, before, t)
      ensures old(m_free_list != [] || m_db_cur_conn_cnt < m_db_max_conn_cnt) ==>
                done && before == before0 && u == old(Abs())
    {
      hide Valid, AtLoop, Apply, Enabled, GetResult, GetSteps, GetValue, Play, Blocked;
      hide OnPlan, InLoop, Returned, Waiting;
      ghost var added, s0 := false, Abs();
      var k, empty, got := k0, true, true;
      conn, before := Null, before0;
      empty, u := FirstTest(t, start, before, connects, luck, turns[k..], plan);
      while empty
        invariant origin == old(origin) && InLoop(start, before, u, t, connects, added)
        invariant empty == (m_free_list == []) && k <= |turns| && OnPlan(t, luck, turns[k..], plan)
        invariant s0.free != [] || s0.cur < s0.max ==> before == before0 && u == s0
        decreases |turns| - k, empty
      {
        ghost var s := Abs();
        var full := LimitReached(t, start, before, u, connects, added, luck, turns[k..], plan);
        if full {
          got, k, empty, before, u := WaitAndTest(t, turns, k, start, before, connects, luck, plan);
          if !got {
            Finished(t, luck, turns[k..], plan);
            return false, Null, before, u;
          }
        } else {
          GrowOrFail(t, connects, start, before, u, s, luck, turns[k..], plan);
          if !connects {
            Finished(t, luck, turns[k..], plan);
            return true, Null, before, u;
          }
          added, empty := true, false;
        }
      }
      conn := TakeAndLeave(t, connects, start, before, u, added, luck, turns[k..], plan);
      Finished(t, luck, turns[k..], plan);
      done := true;
    }

    /**
     GetDBConn.  `connects` is the outcome of the connection attempt, should there be one, and `turns`
     are the steps the others take whenever the caller is blocked or asleep; if they run out first, the
     call has not returned (`done` is false).  Everything that happens is what the schedule says.
     */
    method GetDBConn(t: Tid, connects: bool, turns: seq<seq<Action>>)
      returns (done: bool, conn: Ref, ghost before: seq<Action>, ghost u: Pool)
      requires Valid() && t < |pcs| && pcs[t] == Out
      modifies this, m_free_notify
      ensures Valid() && origin == old(origin)
      ensures if done then Returned(old(trace), before, u, t, connects, conn) else Waiting(old(trace), before, t)
      ensures trace == old(trace) + CallPlan(old(Abs()), CallGet(t), Luck(connects, {}), turns)
      ensures Abs() == CallEnd(old(Abs()), CallGet(t), Luck(connects, {}), turns)
      ensures done == (t < |pcs| && pcs[t] == Out)
      ensures old(NoWait(Abs())) ==> done && before == EnterGetSteps(t) && u == Inside(old(Abs()), t)
    {
      ghost var luck := Luck(connects, {});
      ghost var plan, s, start := trace + CallPlan(Abs(), CallGet(t), luck, turns), Abs(), trace;
      CallSteps(s, CallGet(t), luck, turns);
      assert Steps(origin, start, s);
      hide Valid, Apply, Enabled, EnterGetSteps, Play, CallPlan, CallEnd, OnPlan, Returned;
      var got, k;
      got, k, before := Enter(t, turns, luck, plan);
      if !got {
        Finished(t, luck, turns[k..], plan);
        done, conn, u := false, Null, s;
      } else {
        done, conn, before, u := LoopAndLeave(t, connects, turns, k, old(trace), before, luck, plan);
        OutIff(done, start, before, u, t, connects, conn);
      }
      Ended(start, s, CallPlan(s, CallGet(t), luck, turns), CallEnd(s, CallGet(t), luck, turns));
    }

    /** The state reached is where the steps since `start` lead. */
    lemma Ended(start: seq<Action>, s: Pool, acts: seq<Action>, u: Pool)
      requires Valid() && Steps(origin, start, s) && trace == start + acts && Steps(s, acts, u)
      ensures Abs() == u
    {
      StepsSuffix(origin, start, s, acts, Abs());
    }

    lemma OutIff(done: bool, start: seq<Action>, before: seq<Action>, u: Pool, t: Tid, connects: bool, conn: Ref)
      requires if done then Returned(start, before, u, t, connects, conn) else Waiting(start, before, t)
      ensures done == (t < |pcs| && pcs[t] == Out)
    {
    }

    lemma Finished(t: Tid, luck: Luck, rest: seq<seq<Action>>, plan: seq<Action>)
      requires OnPlan(t, luck, rest, plan) && (pcs[t] == Out || (Blocked(Abs(), t) && rest == []))
      ensures Valid() && trace == plan
    {
      PlanDone(trace, Abs(), t, luck, rest, plan);
    }

    /** From the push to the end, with the mutex held. */
    method PutBackAndLeave(t: Tid, conn: Ref, pick: set<Tid>,
                           ghost luck: Luck, ghost rest: seq<seq<Action>>, ghost plan: seq<Action>)
      returns (ghost woken: set<Tid>)
      requires OnPlan(t, luck, rest, plan) && pcs[t] == RelPush(conn) && m_free_notify.m_mutex == Held(t, 1)
      requires luck.pick == pick
      modifies this, m_free_notify
      ensures Valid() && origin == old(origin) && OnPlan(t, luck, rest, plan) && pcs[t] == Out
      ensures woken == old(Chosen(Abs(), pick)) && trace == old(trace) + RelSteps(t, woken)
      ensures Abs() == RelResult(old(Abs()), t, conn, woken)
    {
      hide Valid, Apply, RelResult, Chosen, Play, Enabled, Sleepers;
      woken := Chosen(Abs(), pick);
      RelTakes(Abs(), t, conn, woken);
      Pushed(Abs(), t, pick);
      PushNext(t, conn, luck, rest, plan);
      var _ := SignalNext(t, pick, luck, rest, plan);
      UnlockNext(t, luck, rest, plan);
    }

    lemma Pushed(s: Pool, t: Tid, pick: set<Tid>)
      requires t < |s.pcs| && s.pcs[t].RelPush? && s.mutex == Held(t, 1)
      ensures Enabled(s, Push(t))
      ensures var u, woken := Apply(s, Push(t)), Chosen(s, pick);
              && t < |u.pcs| && u.pcs[t] == RelSignal && Chosen(u, pick) == woken
              && Enabled(u, Action.Signal(t, woken))
              && var v := Apply(u, Action.Signal(t, woken));
                 && v.mutex == Held(t, 1) && t < |v.pcs| && v.pcs[t] == RelUnlock && Enabled(v, Unlock(t))
                 && |Apply(v, Unlock(t)).pcs| > t && Apply(v, Unlock(t)).pcs[t] == Out
    {
      assert Sleepers(Apply(s, Push(t))) == Sleepers(s);
    }

    /** Comes in with a connection, and takes the mutex. */
    method EnterWith(t: Tid, conn: Ref, turns: seq<seq<Action>>, ghost luck: Luck, ghost plan: seq<Action>)
      returns (got: bool, ghost k: nat, ghost before: seq<Action>)
      requires Valid() && t < |pcs| && pcs[t] == Out
      requires plan == trace + CallPlan(Abs(), CallRel(t, conn), luck, turns)
      modifies this, m_free_notify
      ensures Valid() && origin == old(origin) && k <= |turns| && OnPlan(t, luck, turns[k..], plan)
      ensures trace == old(trace) + before && OnlyEnters(before, t, conn) && t < |pcs|
      ensures pcs[t] == if got then RelPush(conn) else RelLock(conn)
      ensures if got then m_free_notify.m_mutex == Held(t, 1) else Blocked(Abs(), t) && k == |turns|
      ensures old(m_free_notify.m_mutex) == Unheld ==> got && Abs() == InsideWith(old(Abs()), t, conn)
    {
      hide Play, Enabled;
      ghost var s := Abs();
      CallEnabled(s, t);
      Begin(CallRel(t, conn), luck, turns);
      assert turns[0..] == turns;
      ghost var did;
      var n;
      got, n, did := Acquire(t, turns, 0, luck, plan);
      k := n;
      before := [CallRel(t, conn)] + did + if got then [Action.Lock(t)] else [];
      UpdateTwice(s.pcs, t, RelLock(conn), RelPush(conn));
    }

    /**
     RelConn.  When it returns it has come in (`before`) and then, in the state `u`, taken effect as
     the indivisible operation; if the schedule ends first it is still at its lock.
     */
    method RelConn(t: Tid, conn: Ref, turns: seq<seq<Action>>, pick: set<Tid>)
      returns (done: bool, ghost before: seq<Action>, ghost u: Pool, ghost woken: set<Tid>)
      requires Valid() && t < |pcs| && pcs[t] == Out
      modifies this, m_free_notify
      ensures Valid() && origin == old(origin) && OnlyEnters(before, t, conn)
      ensures !done ==> trace == old(trace) + before && t < |pcs| && pcs[t] == RelLock(conn) && Blocked(Abs(), t)
      ensures done ==>
                && Steps(origin, old(trace) + before, u)
                && t < |u.pcs| && u.pcs[t] == RelPush(conn) && u.mutex == Held(t, 1)
                && trace == old(trace) + before + RelSteps(t, woken)
                && Abs() == RelResult(u, t, conn, woken)
      ensures trace == old(trace) + CallPlan(old(Abs()), CallRel(t, conn), Luck(false, pick), turns)
      ensures Abs() == CallEnd(old(Abs()), CallRel(t, conn), Luck(false, pick), turns)
      ensures old(m_free_notify.m_mutex) == Unheld ==> done && u == InsideWith(old(Abs()), t, conn)
    {
      ghost var luck := Luck(false, pick);
      ghost var plan, s, start := trace + CallPlan(Abs(), CallRel(t, conn), luck, turns), Abs(), trace;
      CallSteps(s, CallRel(t, conn), luck, turns);
      hide Apply, RelSteps, RelResult, Play, CallPlan, CallEnd, Enabled, MutexOk, PointsOk;
      ghost var k;
      done, k, before := EnterWith(t, conn, turns, luck, plan);
      u, woken := Abs(), {};
      if done {
        woken := PutBackAndLeave(t, conn, pick, luck, turns[k..], plan);
      }
      Finished(t, luck, turns[k..], plan);
      Ended(start, s, CallPlan(s, CallRel(t, conn), luck, turns), CallEnd(s, CallRel(t, conn), luck, turns));
    }

    /**
     GetDBConn of a caller that has to wait and is served: after `turns` it still waits, and the next turn
     leaves it awake, with the mutex free and a connection listed.  It returns the front of the list.
     */
    method GetServed(t: Tid, connects: bool, turns: seq<seq<Action>>, turn: seq<Action>, more: seq<seq<Action>>)
      returns (conn: Ref)
      requires Valid() && t < |pcs| && pcs[t] == Out
      requires var u := CallEnd(Abs(), CallGet(t), Luck(connects, {}), turns);
               var v := AfterTurn(u, t, turn);
               Blocked(u, t) && v.mutex == Unheld && v.free != [] && t < |v.pcs| && v.pcs[t] != Asleep
      modifies this, m_free_notify
      ensures Valid() && origin == old(origin)
      ensures var v := AfterTurn(CallEnd(old(Abs()), CallGet(t), Luck(connects, {}), turns), t, turn);
              && conn == v.free[0] && m_free_list == v.free[1..]
              && Abs() == v.(pcs := v.pcs[t := Out], free := v.free[1..], leases := v.leases + {Lease(t, conn)})
    {
      ghost var s, start := Abs(), trace;
      GetIsServed(s, t, Luck(connects, {}), turns, turn, more);
      assert Steps(origin, start, s);
      hide Apply, CallPlan, CallEnd, AfterTurn, Turn, Blocked, GetSteps, GetResult, GetValue, MutexOk, PointsOk;
      var done;
      ghost var before, w;
      done, conn, before, w := GetDBConn(t, connects, turns + ([turn] + more));
      ServedValue(origin, start, s, t, connects, turns, turn, more, before, w);
    }

    /** RelConn of a caller that meets a mutex taken, which the next turn of the others frees. */
    method RelServed(t: Tid, conn: Ref, turn: seq<Action>, more: seq<seq<Action>>, pick: set<Tid>)
      requires Valid() && t < |pcs| && pcs[t] == Out && m_free_notify.m_mutex.Held? && m_free_notify.m_mutex.t != t
      requires AfterTurn(Apply(Abs(), CallRel(t, conn)), t, turn).mutex == Unheld
      modifies this, m_free_notify
      ensures Valid() && origin == old(origin)
      ensures var v := AfterTurn(Apply(old(Abs()), CallRel(t, conn)), t, turn);
              && t < |v.pcs| && Abs() == RelResult(v, t, conn, Chosen(v, pick))
              && m_free_list == v.free + (if conn in v.free then [] else [conn]) && pcs[t] == Out
    {
      RelIsCarriedOut(Abs(), t, conn, Luck(false, pick), turn, more);
      hide AfterTurn, CallEnd, CallPlan, MutexOk, PointsOk, Apply;
      var done;
      ghost var before, u, woken;
      done, before, u, woken := RelConn(t, conn, [turn] + more, pick);
    }

    ghost predicate BooksOk()
      reads this, m_free_notify
    {
      DataOk(Abs())
    }

    /**
     The destructor: deletes what is in the free list, in order.  When every connection has been
     returned that is every connection ever made, each once.
     */
    method Destroy() returns (deleted: seq<Ref>)
      modifies this
      ensures deleted == old(m_free_list) && m_free_list == []
      ensures old(BooksOk() && leases == {}) ==>
                |deleted| == made && Distinct(deleted) && forall id: nat :: id < made <==> Conn(id) in deleted
    {
      if BooksOk() && leases == {} {
        AllReturned(Abs());
        assert forall id: nat :: id < made <==> Made(Abs(), Conn(id));
      }
      deleted := [];
      for it := 0 to |m_free_list|
        invariant deleted == m_free_list[..it]
      {
        deleted := deleted + [m_free_list[it]];
      }
      m_free_list := [];
    }
  }

  // ---- objects and runs are the same thing

  /** A pool object whose callers kept the discipline has everything the runs are proved to keep. */
  lemma ObjectsAreRuns(pool: DBPool, threads: nat, max: int, ok: bool)
    requires pool.Valid() && pool.origin == Start(threads, max, ok) && AllProper(pool.origin, pool.trace)
    ensures Inv(pool.Abs())
  {
    StartOk(threads, max, ok);
    RunKeepsInv(pool.origin, pool.trace);
  }

  /** A pool after its constructor and Init. */
  method NewPool(threads: nat, max: int, ret: int) returns (pool: DBPool, r: int)
    ensures fresh(pool) && fresh(pool.m_free_notify) && r == ret
    ensures pool.Valid() && pool.trace == [] && pool.origin == pool.Abs() == Start(threads, max, ret == 0)
  {
    pool := new DBPool(max, threads);
    r := pool.Init(ret);
  }

  /** In the middle of a run the next action can be taken. */
  lemma NextEnabled(s: Pool, acts: seq<Action>, i: nat, u: Pool)
    requires CanRun(s, acts) && i < |acts| && Steps(s, acts[..i], u)
    ensures Enabled(u, acts[i])
  {
    assert acts[..i] + acts[i..] == acts;
    StepsSuffix(s, acts[..i], u, acts[i..], RunFrom(s, acts));
  }

  /** Conversely, every run of the step system is carried out by the statements of a pool object. */
  method Replay(threads: nat, max: int, ret: int, acts: seq<Action>) returns (pool: DBPool)
    requires CanRun(Start(threads, max, ret == 0), acts)
    ensures pool.Valid() && pool.origin == Start(threads, max, ret == 0) && pool.trace == acts
    ensures pool.Abs() == RunFrom(Start(threads, max, ret == 0), acts)
  {
    hide Apply, Enabled, CanRun, RunFrom, MutexOk;
    ghost var s := Start(threads, max, ret == 0);
    var r;
    pool, r := NewPool(threads, max, ret);
    for i := 0 to |acts|
      invariant fresh(pool) && fresh(pool.m_free_notify)
      invariant pool.Valid() && pool.origin == s && pool.trace == acts[..i]
    {
      NextEnabled(s, acts, i, pool.Abs());
      pool.Perform(acts[i]);
      assert acts[..i + 1] == acts[..i] + [acts[i]];
    }
    assert acts[..|acts|] == acts;
  }

  /** One thread that takes the first connection of a new pool, and puts back what it was given. */
  lemma TakeAndRelease(max: int, ok: bool, connects: bool)
    requires ok || max >= 2
    ensures var conn := if ok || connects then Conn(0) else Null;
            var u := Inside(Start(1, max, ok), 0);
            var v := GetResult(u, 0, connects);
            && GetValue(u, connects) == conn
            && v.mutex == Unheld && |v.pcs| == 1 && v.pcs[0] == Out && v.free == []
            && v.leases == (if conn == Null then {} else {Lease(0, conn)})
  {
  }

  lemma PutBackOne(s: Pool, conn: Ref, woken: set<Tid>)
    requires |s.pcs| == 1 && s.pcs[0] == Out && s.mutex == Unheld && s.free == []
    requires s.leases == if conn == Null then {} else {Lease(0, conn)}
    ensures var v := RelResult(InsideWith(s, 0, conn), 0, conn, woken);
            v.mutex == Unheld && v.pcs == [Out] && v.free == [conn] && v.leases == {}
  {
  }

  /** One call and one release by the only thread of a new pool that has a connection or room for one. */
  method UseOnce(pool: DBPool, ok: bool, connects: bool) returns (conn: Ref)
    requires pool.Valid() && pool.Abs() == Start(1, pool.m_db_max_conn_cnt, ok)
    requires ok || pool.m_db_max_conn_cnt >= 2
    modifies pool, pool.m_free_notify
    ensures pool.Valid() && pool.origin == old(pool.origin)
    ensures conn == if ok || connects then Conn(0) else Null
    ensures pool.m_free_list == [conn] && pool.leases == {} && pool.pcs == [Out]
    ensures pool.m_free_notify.m_mutex == Unheld
  {
    hide GetResult, GetValue, RelResult;
    var got, done;
    ghost var before, u, woken;
    TakeAndRelease(pool.m_db_max_conn_cnt, ok, connects);
    got, conn, before, u := pool.GetDBConn(0, connects, []);
    ghost var v := pool.Abs();
    done, before, u, woken := pool.RelConn(0, conn, [], {});
    PutBackOne(v, conn, woken);
  }

  /**
   How the program starts: a new pool, given up if its Init fails; else one thread takes the connection
   of Init, uses it and releases it, whatever the maximum.
   */
  method FirstUse(max: int, ret: int) returns (pool: DBPool, r: int, conn: Ref)
    ensures pool.Valid() && pool.origin == Start(1, max, ret == 0) && r == ret
    ensures ret != 0 ==> pool.trace == [] && pool.m_free_list == []
    ensures ret == 0 ==> conn == Conn(0) && pool.m_free_list == [Conn(0)] && pool.leases == {} && pool.pcs == [Out]
  {
    conn := Null;
    pool, r := NewPool(1, max, ret);
    if r != 0 {
      return;
    }
    conn := UseOnce(pool, true, false);
  }

  /** The turn in which thread 0 puts its connection back. */
  function Returning(): seq<Action> {
    [CallRel(0, Conn(0)), Lock(0), Push(0), Action.Signal(0, {1}), Unlock(0)]
  }

  /** What that turn does while thread 1 sleeps. */
  lemma ReturningWakes(s: Pool)
    requires s.mutex == Unheld && |s.pcs| == 2 && s.pcs[0] == Out && s.pcs[1] == Asleep && s.free == []
    ensures var v := AfterTurn(s, 1, Returning());
            && v.mutex == Unheld && v.free == [Conn(0)] && |v.pcs| == 2 && v.pcs[1] == Woken
            && v.leases == s.leases - {Lease(0, Conn(0))}
  {
    var s1 := Apply(s, CallRel(0, Conn(0)));
    var s2 := Apply(s1, Lock(0));
    var s3 := Apply(s2, Push(0));
    assert 1 in Sleepers(s3);
    var s4 := Apply(s3, Action.Signal(0, {1}));
    TurnGoesOn(s, CallRel(0, Conn(0)), Returning(), 1);
    TurnGoesOn(s1, Lock(0), Returning()[1..], 1);
    TurnGoesOn(s2, Push(0), Returning()[2..], 1);
    TurnGoesOn(s3, Action.Signal(0, {1}), Returning()[3..], 1);
    TurnGoesOn(s4, Unlock(0), Returning()[4..], 1);
  }

  lemma TurnGoesOn(s: Pool, a: Action, turn: seq<Action>, t: Tid)
    requires turn != [] && turn[0] == a && OfOthers(a, t) && Enabled(s, a)
    ensures AfterTurn(s, t, turn) == AfterTurn(Apply(s, a), t, turn[1..])
  {
  }

  /** With a maximum of 1, where the second of two callers sleeps. */
  lemma SecondSleeps(s: Pool)
    requires MutexOk(s) && PointsOk(s) && s.mutex == Unheld && |s.pcs| == 2 && s.pcs[0] == Out && s.pcs[1] == Out
    requires s.free == [] && s.cur >= s.max
    ensures var u := CallEnd(s, CallGet(1), Luck(false, {}), []);
            && u.mutex == Unheld && |u.pcs| == 2 && u.pcs[0] == Out && u.pcs[1] == Asleep && u.free == []
            && u.leases == s.leases
  {
    PointsStep(s, CallGet(1));
    var luck, s1 := Luck(false, {}), Apply(s, CallGet(1));
    var s2 := Apply(s1, Lock(1));
    var s3 := Apply(s2, Test(1));
    var s4 := Apply(s3, Limit(1));
    hide PlayEnd, Play, MutexOk, PointsOk, Effort;
    PlayOwn(s1, 1, luck, []);
    PlayOwn(s2, 1, luck, []);
    PlayOwn(s3, 1, luck, []);
    PlayOwn(s4, 1, luck, []);
    PlayStops(Apply(s4, Sleep(1)), 1, luck, []);
  }

  /** Where the first call on a new pool of one connection leads. */
  lemma FirstTakes(max: int)
    requires max <= 1
    ensures var u := Inside(Start(2, max, true), 0);
            var v := GetResult(u, 0, false);
            && GetValue(u, false) == Conn(0)
            && v.mutex == Unheld && |v.pcs| == 2 && v.pcs[0] == Out && v.pcs[1] == Out
            && v.free == [] && v.cur >= v.max && v.leases == {Lease(0, Conn(0))}
  {
  }

  /** Two callers of a pool of one connection: the second waits until the first puts it back, and gets it. */
  method HandBack(max: int) returns (pool: DBPool, first: Ref, second: Ref)
    requires max <= 1
    ensures first == second == Conn(0) && pool.leases == {Lease(1, Conn(0))} && pool.m_free_list == []
  {
    hide GetResult, GetValue, CallEnd, CallPlan, AfterTurn, Returning, MutexOk, PointsOk;
    var r, done;
    ghost var before, u;
    pool, r := NewPool(2, max, 0);
    FirstTakes(max);
    done, first, before, u := pool.GetDBConn(0, false, []);
    SecondSleeps(pool.Abs());
    ReturningWakes(CallEnd(pool.Abs(), CallGet(1), Luck(false, {}), []));
    second := pool.GetServed(1, false, [], Returning(), []);
  }
}
