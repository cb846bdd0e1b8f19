/**
 The critical sections of the pool: the steps one thread takes between getting the mutex and giving it
 up, and the indivisible operations they add up to.
 */
module PoolSections {
  import opened PoolMachine
  import opened PoolSafety

  /** Taking the actions one after the other leads from `s` to `u`. */
  ghost predicate Steps(s: Pool, acts: seq<Action>, u: Pool) {
    CanRun(s, acts) && RunFrom(s, acts) == u
  }

  lemma {:induction false} StepsSnoc(s: Pool, acts: seq<Action>, u: Pool, a: Action)
    requires Steps(s, acts, u) && Enabled(u, a)
    ensures Steps(s, acts + [a], Apply(u, a))
    decreases acts
  {
    if acts == [] {
      assert acts + [a] == [a] && [a][1..] == [];
    } else {
      assert (acts + [a])[1..] == acts[1..] + [a];
      StepsSnoc(Apply(s, acts[0]), acts[1..], u, a);
    }
  }

  lemma {:induction false} StepsOn(s: Pool, acts: seq<Action>, u: Pool, more: seq<Action>, v: Pool)
    requires Steps(s, acts, u) && Steps(u, more, v)
    ensures Steps(s, acts + more, v)
    decreases acts
  {
    if acts == [] {
      assert acts + more == more;
    } else {
      assert (acts + more)[0] == acts[0] && (acts + more)[1..] == acts[1..] + more;
      StepsOn(Apply(s, acts[0]), acts[1..], u, more, v);
    }
  }

  /** The steps of one pass through GetDBConn, from holding the mutex to giving it up. */
  function GetSteps(s: Pool, t: Tid, connects: bool): seq<Action> {
    if s.free != [] then [Test(t), Pop(t), Unlock(t)]
    else if s.cur >= s.max then [Test(t), Limit(t), Sleep(t)]
    else if connects then [Test(t), Limit(t), Connect(t, true), Test(t), Pop(t), Unlock(t)]
    else [Test(t), Limit(t), Connect(t, false), Unlock(t)]
  }

  /** The steps of RelConn, from holding the mutex to giving it up. */
  function RelSteps(t: Tid, woken: set<Tid>): seq<Action> {
    [Push(t), Signal(t, woken), Unlock(t)]
  }

  /** GetDBConn as one indivisible operation on a pool whose mutex the caller holds. */
  function GetResult(s: Pool, t: Tid, connects: bool): Pool
    requires t < |s.pcs|
  {
    var back := s.(mutex := Unheld, pcs := s.pcs[t := Out]);
    if s.free != [] then back.(free := s.free[1..], leases := s.leases + {Lease(t, s.free[0])})
    else if s.cur >= s.max then s.(mutex := Unheld, pcs := s.pcs[t := Asleep])
    else if connects then back.(cur := s.cur + 1, made := s.made + 1, leases := s.leases + {Lease(t, Conn(s.made))})
    else back
  }

  /** What that call returns; a caller put to sleep has no result yet, and Null stands for it. */
  function GetValue(s: Pool, connects: bool): Ref {
    if s.free != [] then s.free[0]
    else if s.cur < s.max && connects then Conn(s.made)
    else Null
  }

  /** The operation field by field: what a call that need not wait returns, and what it changes. */
  lemma GetResultIs(s: Pool, t: Tid, connects: bool)
    requires t < |s.pcs| && (s.free != [] || s.cur < s.max)
    ensures var u, conn := GetResult(s, t, connects), GetValue(s, connects);
            && u.mutex == Unheld && u.pcs == s.pcs[t := Out] && u.max == s.max && u.lost == s.lost
            && (s.free != [] ==>
                  conn == s.free[0] && s.free == [conn] + u.free && u.cur == s.cur && u.made == s.made)
            && (s.free == [] && connects ==>
                  conn == Conn(s.made) && u.free == [] && u.cur == s.cur + 1 && u.made == s.made + 1)
            && (s.free != [] || connects ==> u.leases == s.leases + {Lease(t, conn)})
            && (s.free == [] && !connects ==> conn == Null && u == s.(mutex := Unheld, pcs := s.pcs[t := Out]))
  {
  }

  /** RelConn as one indivisible operation. */
  function RelResult(s: Pool, t: Tid, conn: Ref, woken: set<Tid>): Pool
    requires t < |s.pcs|
  {
    s.(mutex := Unheld, pcs := Wake(s.pcs, woken)[t := Out],
       free := if conn in s.free then s.free else s.free + [conn],
       leases := s.leases - {Lease(t, conn)})
  }

  lemma RelResultIs(s: Pool, t: Tid, conn: Ref, woken: set<Tid>)
    requires t < |s.pcs| && woken <= Sleepers(s) && s.pcs[t] != Asleep
    ensures var u := RelResult(s, t, conn, woken);
            && u.mutex == Unheld && |u.pcs| == |s.pcs| && u.pcs[t] == Out
            && (forall q: Tid :: q < |s.pcs| && q != t ==> u.pcs[q] == if q in woken then Woken else s.pcs[q])
            && u.free == s.free + (if conn in s.free then [] else [conn])
            && u.leases == s.leases - {Lease(t, conn)}
            && u.cur == s.cur && u.max == s.max && u.made == s.made && u.lost == s.lost
  {
  }

  lemma UpdateTwice<T>(xs: seq<T>, i: nat, x: T, y: T)
    requires i < |xs|
    ensures xs[i := x][i := y] == xs[i := y]
  {
  }

  lemma RunCons(s: Pool, a: Action, acts: seq<Action>)
    requires Enabled(s, a) && CanRun(Apply(s, a), acts)
    ensures CanRun(s, [a] + acts) && RunFrom(s, [a] + acts) == RunFrom(Apply(s, a), acts)
  {
    assert ([a] + acts)[1..] == acts;
  }

  /** Popping and leaving, as the two steps that end every successful call. */
  lemma PopUnlock(s: Pool, t: Tid)
    requires t < |s.pcs| && s.pcs[t].GetPop? && s.mutex == Held(t, 1) && s.free != []
    ensures var acts := [Pop(t), Unlock(t)];
            && CanRun(s, acts)
            && RunFrom(s, acts) == s.(mutex := Unheld, pcs := s.pcs[t := Out], free := s.free[1..],
                                      leases := s.leases + {Lease(t, s.free[0])})
  {
    var u := Apply(s, Pop(t));
    UpdateTwice(s.pcs, t, GetUnlock(s.free[0]), Out);
    RunCons(u, Unlock(t), []);
    RunCons(s, Pop(t), [Unlock(t)]);
    assert [Unlock(t)] + [] == [Unlock(t)] && [Pop(t)] + [Unlock(t)] == [Pop(t), Unlock(t)];
  }

  lemma OneStep(s: Pool, a: Action)
    requires Enabled(s, a)
    ensures CanRun(s, [a]) && RunFrom(s, [a]) == Apply(s, a)
  {
    assert [a][1..] == [];
  }

  /** The steps between taking the mutex and giving it up add up to the indivisible operation. */
  lemma GetStepsResult(s: Pool, t: Tid, connects: bool)
    requires t < |s.pcs| && s.pcs[t].GetTest? && s.mutex == Held(t, 1)
    ensures CanRun(s, GetSteps(s, t, connects))
    ensures RunFrom(s, GetSteps(s, t, connects)) == GetResult(s, t, connects)
  {
    hide CanRun, RunFrom;
    var s1 := Apply(s, Test(t));
    if s.free != [] {
      PopUnlock(s1, t);
      UpdateTwice(s.pcs, t, s1.pcs[t], Out);
      RunCons(s, Test(t), [Pop(t), Unlock(t)]);
      assert [Test(t)] + [Pop(t), Unlock(t)] == GetSteps(s, t, connects);
    } else {
      GetLimitResult(s1, t, connects);
      var rest := GetSteps(s, t, connects)[1..];
      UpdateTwice(s.pcs, t, GetLimit, Out);
      UpdateTwice(s.pcs, t, GetLimit, Asleep);
      RunCons(s, Test(t), rest);
      assert [Test(t)] + rest == GetSteps(s, t, connects);
    }
  }

  /** The same from the point where the list was found empty... */
  lemma GetLimitResult(s: Pool, t: Tid, connects: bool)
    requires t < |s.pcs| && s.pcs[t] == GetLimit && s.mutex == Held(t, 1) && s.free == []
    ensures var rest := GetSteps(s, t, connects)[1..];
            CanRun(s, rest) && RunFrom(s, rest) == GetResult(s, t, connects)
  {
    hide CanRun, RunFrom;
    var u := Apply(s, Limit(t));
    if s.cur >= s.max {
      OneStep(u, Sleep(t));
      UpdateTwice(s.pcs, t, GetWait, Asleep);
      RunCons(s, Limit(t), [Sleep(t)]);
      assert [Limit(t)] + [Sleep(t)] == GetSteps(s, t, connects)[1..];
    } else {
      var rest := GetSteps(s, t, connects)[2..];
      ConnectResult(u, t, connects);
      UpdateTwice(s.pcs, t, GetConnect, Out);
      RunCons(s, Limit(t), rest);
      assert [Limit(t)] + rest == GetSteps(s, t, connects)[1..];
    }
  }

  /** ... and from the point where a connection is to be added. */
  lemma ConnectResult(s: Pool, t: Tid, connects: bool)
    requires t < |s.pcs| && s.pcs[t] == GetConnect && s.mutex == Held(t, 1) && s.free == [] && s.cur < s.max
    ensures var rest := GetSteps(s, t, connects)[2..];
            CanRun(s, rest) && RunFrom(s, rest) == GetResult(s, t, connects)
  {
    hide CanRun, RunFrom;
    if connects {
      ConnectedResult(s, t);
    } else {
      var u := Apply(s, Connect(t, false));
      OneStep(u, Unlock(t));
      UpdateTwice(s.pcs, t, GetFail, Out);
      RunCons(s, Connect(t, false), [Unlock(t)]);
      assert [Connect(t, false)] + [Unlock(t)] == GetSteps(s, t, false)[2..];
    }
  }

  lemma ConnectedResult(s: Pool, t: Tid)
    requires t < |s.pcs| && s.pcs[t] == GetConnect && s.mutex == Held(t, 1) && s.free == [] && s.cur < s.max
    ensures var rest := GetSteps(s, t, true)[2..];
            CanRun(s, rest) && RunFrom(s, rest) == GetResult(s, t, true)
  {
    hide CanRun, RunFrom;
    var u := Apply(s, Connect(t, true));
    var v := Apply(u, Test(t));
    UpdateTwice(s.pcs, t, GetTest(false), GetPop(false));
    UpdateTwice(s.pcs, t, GetPop(false), Out);
    PopUnlock(v, t);
    assert v.free == [Conn(s.made)] && v.free[1..] == s.free;
    RunCons(u, Test(t), [Pop(t), Unlock(t)]);
    assert [Test(t)] + [Pop(t), Unlock(t)] == [Test(t), Pop(t), Unlock(t)];
    RunCons(s, Connect(t, true), [Test(t), Pop(t), Unlock(t)]);
    assert [Connect(t, true)] + [Test(t), Pop(t), Unlock(t)] == GetSteps(s, t, true)[2..];
  }

  lemma RelStepsResult(s: Pool, t: Tid, conn: Ref, woken: set<Tid>)
    requires t < |s.pcs| && s.pcs[t] == RelPush(conn) && s.mutex == Held(t, 1)
    requires woken <= Sleepers(s) && (woken == {} ==> Sleepers(s) == {})
    ensures CanRun(s, RelSteps(t, woken))
    ensures RunFrom(s, RelSteps(t, woken)) == RelResult(s, t, conn, woken)
  {
    var s1 := Apply(s, Push(t));
    assert Sleepers(s1) == Sleepers(s);
    var s2 := Apply(s1, Action.Signal(t, woken));
    OneStep(s2, Unlock(t));
    RunCons(s1, Action.Signal(t, woken), [Unlock(t)]);
    RunCons(s, Push(t), [Action.Signal(t, woken), Unlock(t)]);
    assert t !in Sleepers(s);
    assert Wake(s1.pcs, woken)[t := RelUnlock][t := Out] == Wake(s.pcs, woken)[t := Out];
  }

  /** What was run after reaching `u` leads from `u` to where the whole run leads. */
  lemma {:induction false} StepsSuffix(s: Pool, before: seq<Action>, u: Pool, after: seq<Action>, v: Pool)
    requires Steps(s, before, u) && Steps(s, before + after, v)
    ensures Steps(u, after, v)
    decreases before
  {
    if before == [] {
      assert before + after == after;
    } else {
      assert (before + after)[0] == before[0] && (before + after)[1..] == before[1..] + after;
      StepsSuffix(Apply(s, before[0]), before[1..], u, after, v);
    }
  }

  // ---- interleavings

  /** The actions of thread `t` among `acts`. */
  function OnlyOf(acts: seq<Action>, t: Tid): seq<Action> {
    if acts == [] then []
    else if acts[0].t == t then [acts[0]] + OnlyOf(acts[1..], t)
    else OnlyOf(acts[1..], t)
  }

  /** `s` and `v` differ at most in where threads other than `t` are and in who holds which lease. */
  ghost predicate SameFor(s: Pool, v: Pool, t: Tid) {
    && t < |s.pcs| == |v.pcs|
    && v == s.(pcs := v.pcs, leases := v.leases) && v.pcs[t] == s.pcs[t]
  }

  predicate Releases(a: Action) {
    a.Unlock? || a.Sleep?
  }

  /** Thread `t` gives the mutex up at the end if at all. */
  ghost predicate WithinSection(acts: seq<Action>, t: Tid) {
    forall i :: 0 <= i < |acts| - 1 && acts[i].t == t ==> !Releases(acts[i])
  }

  ghost predicate NoHandOver(acts: seq<Action>) {
    forall a <- acts :: !a.HandOver?
  }

  /** The same action, or a signal of the same thread that wakes others. */
  predicate SameButWoken(a: Action, b: Action) {
    a == b || (a.Signal? && b.Signal? && a.t == b.t)
  }

  ghost predicate AllSameButWoken(own: seq<Action>, acts: seq<Action>) {
    |own| == |acts| && forall i :: 0 <= i < |own| ==> SameButWoken(own[i], acts[i])
  }

  /**
   While `t` holds the mutex, other threads can change their own program points, hand connections
   over, and nothing else.
   */
  lemma OthersHarmless(s: Pool, a: Action, t: Tid)
    requires MutexOk(s) && s.mutex == Held(t, 1) && Enabled(s, a) && a.t != t
    ensures SameFor(Apply(s, a), s, t)
    ensures !a.HandOver? ==> Apply(s, a).leases == s.leases
  {
    assert !Holding(s.pcs[a.t]);
  }

  /**
   A step of `t` itself can be taken in both states and has the same effect.  Fewer may be left to
   wake in one of them, if some have woken spuriously.
   */
  lemma OwnStepSame(s: Pool, v: Pool, a: Action, t: Tid) returns (b: Action)
    requires SameFor(s, v, t) && Holding(s.pcs[t]) && Enabled(s, a) && a.t == t
    ensures SameButWoken(b, a) && Enabled(v, b) && SameFor(Apply(s, a), Apply(v, b), t)
    ensures s.leases == v.leases ==> Apply(s, a).leases == Apply(v, b).leases
  {
    b := if a.Signal? then Action.Signal(t, Sleepers(v)) else a;
  }

  lemma HoldsOn(s: Pool, a: Action, t: Tid)
    requires MutexOk(s) && s.mutex == Held(t, 1) && Enabled(s, a)
    requires a.t == t ==> !Releases(a)
    ensures Apply(s, a).mutex == Held(t, 1)
  {
    assert Holding(s.pcs[t]);
  }

  /**
   Critical sections are indivisible: whatever other threads do in between, a thread that holds the
   mutex ends up exactly as if it had taken its steps alone, except for whom its signals wake and for
   connections handed over meanwhile.
   */
  lemma {:induction false} SectionsIndivisible(s: Pool, v: Pool, acts: seq<Action>, t: Tid) returns (own: seq<Action>)
    requires MutexOk(s) && s.mutex == Held(t, 1) && SameFor(s, v, t)
    requires CanRun(s, acts) && WithinSection(acts, t)
    ensures AllSameButWoken(own, OnlyOf(acts, t)) && CanRun(v, own)
    ensures SameFor(RunFrom(s, acts), RunFrom(v, own), t)
    ensures NoHandOver(acts) && s.leases == v.leases ==> RunFrom(s, acts).leases == RunFrom(v, own).leases
    decreases acts
  {
    own := [];
    if acts != [] {
      var a, rest := acts[0], acts[1..];
      MutexStep(s, a);
      RestWithin(acts, t);
      if a.t != t {
        OthersHarmless(s, a, t);
        HoldsOn(s, a, t);
        own := SectionsIndivisible(Apply(s, a), v, rest, t);
      } else {
        own := OwnFirst(s, v, acts, t);
      }
    }
  }

  /** The case of a step of `t` itself. */
  lemma {:induction false} OwnFirst(s: Pool, v: Pool, acts: seq<Action>, t: Tid) returns (own: seq<Action>)
    requires MutexOk(s) && s.mutex == Held(t, 1) && SameFor(s, v, t)
    requires acts != [] && acts[0].t == t && CanRun(s, acts) && WithinSection(acts, t)
    ensures AllSameButWoken(own, OnlyOf(acts, t)) && CanRun(v, own)
    ensures SameFor(RunFrom(s, acts), RunFrom(v, own), t)
    ensures NoHandOver(acts) && s.leases == v.leases ==> RunFrom(s, acts).leases == RunFrom(v, own).leases
    decreases acts, 0
  {
    var a, rest, u := acts[0], acts[1..], Apply(s, acts[0]);
    assert Holding(s.pcs[t]);
    MutexStep(s, a);
    RestWithin(acts, t);
    var b := OwnStepSame(s, v, a, t);
    var w, more := Apply(v, b), [];
    if rest != [] {
      HoldsOn(s, a, t);
      more := SectionsIndivisible(u, w, rest, t);
    }
    RunCons(v, b, more);
    own := [b] + more;
  }

  lemma RestWithin(acts: seq<Action>, t: Tid)
    requires acts != [] && WithinSection(acts, t)
    ensures WithinSection(acts[1..], t)
    ensures |acts| > 1 && acts[0].t == t ==> !Releases(acts[0])
    ensures NoHandOver(acts) ==> !acts[0].HandOver? && NoHandOver(acts[1..])
  {
    forall i | 0 <= i < |acts[1..]| - 1 && acts[1..][i].t == t
      ensures !Releases(acts[1..][i])
    {
      assert acts[1..][i] == acts[i + 1];
    }
    assert acts[0] in acts;
  }

  // ---- what a thread does alone in a critical section

  /** Thread `t` and nobody else acts, and gives the mutex up at the end. */
  ghost predicate OwnSection(acts: seq<Action>, t: Tid) {
    && acts != [] && (forall a <- acts :: a.t == t)
    && Releases(acts[|acts| - 1]) && WithinSection(acts, t)
  }

  /** A section that starts with a step that keeps the mutex goes on. */
  lemma SectionTail(s: Pool, acts: seq<Action>, t: Tid)
    requires CanRun(s, acts) && OwnSection(acts, t) && !Releases(acts[0])
    ensures OwnSection(acts[1..], t) && CanRun(Apply(s, acts[0]), acts[1..])
    ensures acts == [acts[0]] + acts[1..]
  {
    RestWithin(acts, t);
    assert acts[1..][|acts| - 2] == acts[|acts| - 1];
  }

  lemma SectionEnds(acts: seq<Action>, t: Tid)
    requires OwnSection(acts, t) && Releases(acts[0])
    ensures acts == [acts[0]]
  {
    assert acts[0] in acts;
  }

  /** At a holding point other than the connect and the signal there is one thing to do. */
  lemma OneChoice(s: Pool, a: Action, t: Tid)
    requires t < |s.pcs| && Enabled(s, a) && a.t == t && Holding(s.pcs[t])
    ensures s.pcs[t].GetTest? ==> a == Test(t)
    ensures s.pcs[t] == GetLimit ==> a == Limit(t)
    ensures s.pcs[t] == GetWait ==> a == Sleep(t)
    ensures s.pcs[t] == GetConnect ==> a == Connect(t, true) || a == Connect(t, false)
    ensures s.pcs[t].GetPop? ==> a == Pop(t)
    ensures s.pcs[t].RelPush? ==> a == Push(t)
    ensures s.pcs[t] == RelSignal ==> a.Signal?
    ensures AtUnlock(s.pcs[t]) ==> a == Unlock(t)
  {
  }

  lemma OwnUnlock(s: Pool, acts: seq<Action>, t: Tid)
    requires t < |s.pcs| && AtUnlock(s.pcs[t]) && CanRun(s, acts) && OwnSection(acts, t)
    ensures acts == [Unlock(t)]
  {
    assert acts[0] in acts;
    OneChoice(s, acts[0], t);
    SectionEnds(acts, t);
  }

  lemma OwnPop(s: Pool, acts: seq<Action>, t: Tid)
    requires t < |s.pcs| && s.pcs[t].GetTest? && s.free != [] && CanRun(s, acts) && OwnSection(acts, t)
    ensures acts == [Test(t), Pop(t), Unlock(t)]
  {
    assert acts[0] in acts && acts[0] == Test(t);
    SectionTail(s, acts, t);
    var u, rest := Apply(s, Test(t)), acts[1..];
    assert rest[0] in rest;
    OneChoice(u, rest[0], t);
    SectionTail(u, rest, t);
    OwnUnlock(Apply(u, Pop(t)), rest[1..], t);
  }

  lemma OwnConnect(s: Pool, acts: seq<Action>, t: Tid) returns (connects: bool)
    requires t < |s.pcs| && s.pcs[t] == GetConnect && s.free == [] && CanRun(s, acts) && OwnSection(acts, t)
    ensures acts == if connects then [Connect(t, true), Test(t), Pop(t), Unlock(t)]
                    else [Connect(t, false), Unlock(t)]
  {
    assert acts[0] in acts;
    OneChoice(s, acts[0], t);
    connects := acts[0] == Connect(t, true);
    SectionTail(s, acts, t);
    if connects {
      OwnPop(Apply(s, Connect(t, true)), acts[1..], t);
    } else {
      OwnUnlock(Apply(s, Connect(t, false)), acts[1..], t);
    }
  }

  lemma OwnLimit(s: Pool, acts: seq<Action>, t: Tid) returns (connects: bool)
    requires t < |s.pcs| && s.pcs[t] == GetLimit && s.free == [] && CanRun(s, acts) && OwnSection(acts, t)
    ensures [Test(t)] + acts == GetSteps(s, t, connects)
  {
    assert acts[0] in acts;
    OneChoice(s, acts[0], t);
    SectionTail(s, acts, t);
    var u, rest := Apply(s, Limit(t)), acts[1..];
    if s.cur >= s.max {
      connects := false;
      assert rest[0] in rest;
      OneChoice(u, rest[0], t);
      SectionEnds(rest, t);
    } else {
      connects := OwnConnect(u, rest, t);
    }
  }

  /** From the test of the list on, what a thread does by itself is one of the ways through GetDBConn. */
  lemma OwnGet(s: Pool, acts: seq<Action>, t: Tid) returns (connects: bool)
    requires t < |s.pcs| && s.pcs[t].GetTest? && CanRun(s, acts) && OwnSection(acts, t)
    ensures acts == GetSteps(s, t, connects)
  {
    if s.free != [] {
      connects := false;
      OwnPop(s, acts, t);
    } else {
      assert acts[0] in acts;
      OneChoice(s, acts[0], t);
      SectionTail(s, acts, t);
      connects := OwnLimit(Apply(s, Test(t)), acts[1..], t);
    }
  }

  /** From the push on, it is RelConn, with some signal. */
  lemma OwnRel(s: Pool, acts: seq<Action>, t: Tid) returns (woken: set<Tid>)
    requires t < |s.pcs| && s.pcs[t].RelPush? && CanRun(s, acts) && OwnSection(acts, t)
    ensures acts == RelSteps(t, woken)
  {
    assert acts[0] in acts;
    OneChoice(s, acts[0], t);
    SectionTail(s, acts, t);
    var u, rest := Apply(s, Push(t)), acts[1..];
    assert rest[0] in rest;
    OneChoice(u, rest[0], t);
    woken := rest[0].woken;
    SectionTail(u, rest, t);
    OwnUnlock(Apply(u, rest[0]), rest[1..], t);
  }

  // ---- whole critical sections under interference

  /** Thread `t` gives the mutex up in the last step, and not before. */
  ghost predicate EndsSection(acts: seq<Action>, t: Tid) {
    && acts != [] && acts[|acts| - 1].t == t && Releases(acts[|acts| - 1])
    && WithinSection(acts, t)
  }

  /** The steps of `t` in such a run make up a section of its own. */
  lemma {:induction false} OwnPart(acts: seq<Action>, t: Tid)
    requires EndsSection(acts, t)
    ensures OwnSection(OnlyOf(acts, t), t)
    decreases acts
  {
    var rest := acts[1..];
    if |acts| > 1 {
      RestWithin(acts, t);
      assert rest[|rest| - 1] == acts[|acts| - 1];
      OwnPart(rest, t);
      if acts[0].t == t {
        OwnCons(acts[0], OnlyOf(rest, t), t);
      }
    } else {
      assert OnlyOf(acts, t) == [acts[0]];
    }
  }

  lemma OwnCons(a: Action, own: seq<Action>, t: Tid)
    requires a.t == t && !Releases(a) && OwnSection(own, t)
    ensures OwnSection([a] + own, t)
  {
    var acts := [a] + own;
    forall i | 0 <= i < |acts| - 1 && acts[i].t == t
      ensures !Releases(acts[i])
    {
      assert i > 0 ==> acts[i] == own[i - 1];
    }
    assert acts[|acts| - 1] == own[|own| - 1];
  }

  /** Waking others instead does not make it less of a section. */
  lemma SameSection(own: seq<Action>, acts: seq<Action>, t: Tid)
    requires AllSameButWoken(own, acts) && OwnSection(acts, t)
    ensures OwnSection(own, t)
  {
    assert forall i :: 0 <= i < |own| ==> own[i].t == acts[i].t && (Releases(own[i]) <==> Releases(acts[i]));
    forall a <- own
      ensures a.t == t
    {
      var i :| 0 <= i < |own| && own[i] == a;
      assert acts[i] in acts;
    }
  }

  /**
   GetDBConn under interference: in any run in which `t`, at the test of the list, goes on until it gives
   the mutex up, the pool ends up, other threads' program points and hand-overs aside, as the indivisible
   operation leaves it.
   */
  lemma GetIsAtomic(s: Pool, acts: seq<Action>, t: Tid) returns (connects: bool)
    requires MutexOk(s) && t < |s.pcs| && s.pcs[t].GetTest? && CanRun(s, acts) && EndsSection(acts, t)
    ensures OnlyOf(acts, t) == GetSteps(s, t, connects)
    ensures SameFor(RunFrom(s, acts), GetResult(s, t, connects), t)
    ensures NoHandOver(acts) ==> RunFrom(s, acts).leases == GetResult(s, t, connects).leases
  {
    assert Holding(s.pcs[t]);
    hide GetSteps, GetResult, OwnSection, OnlyOf, Holding;
    var own := SectionsIndivisible(s, s, acts, t);
    OwnPart(acts, t);
    SameSection(own, OnlyOf(acts, t), t);
    connects := OwnGet(s, own, t);
    GetStepsResult(s, t, connects);
    GetStepsSilent(s, t, connects);
    NoSignalsSame(own, OnlyOf(acts, t));
  }

  lemma GetStepsSilent(s: Pool, t: Tid, connects: bool)
    ensures forall i :: 0 <= i < |GetSteps(s, t, connects)| ==> !GetSteps(s, t, connects)[i].Signal?
  {
  }

  lemma NoSignalsSame(own: seq<Action>, acts: seq<Action>)
    requires AllSameButWoken(own, acts) && forall i :: 0 <= i < |own| ==> !own[i].Signal?
    ensures own == acts
  {
    forall i | 0 <= i < |own|
      ensures own[i] == acts[i]
    {
      assert SameButWoken(own[i], acts[i]);
    }
  }

  /** The same for RelConn from the push on, whomever its signal wakes. */
  lemma RelIsAtomic(s: Pool, acts: seq<Action>, t: Tid) returns (woken: set<Tid>)
    requires MutexOk(s) && t < |s.pcs| && s.pcs[t].RelPush? && CanRun(s, acts) && EndsSection(acts, t)
    ensures OnlyOf(acts, t) == RelSteps(t, woken)
    ensures SameFor(RunFrom(s, acts), RelResult(s, t, s.pcs[t].r, woken), t)
    ensures NoHandOver(acts) ==> RunFrom(s, acts).leases == RelResult(s, t, s.pcs[t].r, woken).leases
  {
    assert Holding(s.pcs[t]);
    var own := SectionsIndivisible(s, s, acts, t);
    var only := OnlyOf(acts, t);
    OwnPart(acts, t);
    SameSection(own, only, t);
    var w := OwnRel(s, own, t);
    RelSectionResult(s, t, s.pcs[t].r, w);
    assert SameButWoken(own[0], only[0]) && SameButWoken(own[1], only[1]) && SameButWoken(own[2], only[2]);
    woken := only[1].woken;
    assert only == RelSteps(t, woken);
  }

  /** Steps of RelConn that can be taken had a proper signal among them. */
  lemma RelSectionResult(s: Pool, t: Tid, conn: Ref, woken: set<Tid>)
    requires t < |s.pcs| && s.pcs[t] == RelPush(conn) && s.mutex == Held(t, 1)
    requires CanRun(s, RelSteps(t, woken))
    ensures RunFrom(s, RelSteps(t, woken)) == RelResult(s, t, conn, woken)
  {
    var s1 := Apply(s, Push(t));
    assert RelSteps(t, woken)[1..] == [Action.Signal(t, woken), Unlock(t)];
    assert Enabled(s1, Action.Signal(t, woken));
    assert Sleepers(s1) == Sleepers(s);
    RelStepsResult(s, t, conn, woken);
  }
}
