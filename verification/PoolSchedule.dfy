/**
 One call under a schedule, on values.  The caller takes its own steps whenever it can; whenever it is
 kept from the mutex or asleep, the other threads take a turn.  What they take in a turn is given as a
 list of actions, of which those are carried out that can be taken as they come.
 */
module PoolSchedule {
  import opened PoolMachine
  import opened PoolSafety
  import opened PoolProgress
  import opened PoolSections

  // ---- a turn of the others

  /** The step of another thread, or `t` waking by chance. */
  predicate OfOthers(a: Action, t: Tid) {
    a.t != t || a.Spurious?
  }

  /** The steps of a turn that are carried out... */
  function Turn(s: Pool, t: Tid, turn: seq<Action>): seq<Action>
    decreases turn
  {
    if turn == [] then []
    else if OfOthers(turn[0], t) && Enabled(s, turn[0]) then [turn[0]] + Turn(Apply(s, turn[0]), t, turn[1..])
    else Turn(s, t, turn[1..])
  }

  /** ... and where they lead. */
  function AfterTurn(s: Pool, t: Tid, turn: seq<Action>): Pool
    decreases turn
  {
    if turn == [] then s
    else if OfOthers(turn[0], t) && Enabled(s, turn[0]) then AfterTurn(Apply(s, turn[0]), t, turn[1..])
    else AfterTurn(s, t, turn[1..])
  }

  lemma {:induction false} TurnSteps(s: Pool, t: Tid, turn: seq<Action>)
    ensures Steps(s, Turn(s, t, turn), AfterTurn(s, t, turn))
    decreases turn
  {
    if turn != [] {
      if OfOthers(turn[0], t) && Enabled(s, turn[0]) {
        var u := Apply(s, turn[0]);
        TurnSteps(u, t, turn[1..]);
        RunCons(s, turn[0], Turn(u, t, turn[1..]));
      } else {
        TurnSteps(s, t, turn[1..]);
      }
    }
  }

  lemma TurnNone(s: Pool, t: Tid)
    ensures Turn(s, t, []) == [] && AfterTurn(s, t, []) == s
  {
  }

  /** A turn leaves a caller that cannot move where it is, or wakes it. */
  ghost predicate Stays(s: Pool, u: Pool, t: Tid) {
    && |u.pcs| == |s.pcs|
    && (t < |s.pcs| && (WantsLock(s.pcs[t]) || s.pcs[t] == Asleep) ==>
          u.pcs[t] == s.pcs[t] || (s.pcs[t] == Asleep && u.pcs[t] == Woken))
  }

  lemma {:induction false} TurnKeeps(s: Pool, t: Tid, turn: seq<Action>)
    requires MutexOk(s) && PointsOk(s)
    ensures var u := AfterTurn(s, t, turn); MutexOk(u) && PointsOk(u) && Stays(s, u, t)
    decreases turn
  {
    if turn != [] {
      if OfOthers(turn[0], t) && Enabled(s, turn[0]) {
        PointsStep(s, turn[0]);
        TurnKeeps(Apply(s, turn[0]), t, turn[1..]);
      } else {
        TurnKeeps(s, t, turn[1..]);
      }
    }
  }

  /** Steps of others that can be taken one after the other are all carried out. */
  lemma {:induction false} WholeTurn(s: Pool, t: Tid, turn: seq<Action>)
    requires CanRun(s, turn) && forall a <- turn :: OfOthers(a, t)
    ensures Turn(s, t, turn) == turn && AfterTurn(s, t, turn) == RunFrom(s, turn)
    decreases turn
  {
    if turn != [] {
      assert turn[0] in turn;
      WholeTurn(Apply(s, turn[0]), t, turn[1..]);
    }
  }

  lemma {:induction false} TurnSnoc(s: Pool, t: Tid, turn: seq<Action>, a: Action)
    ensures var u := AfterTurn(s, t, turn);
            var taken := OfOthers(a, t) && Enabled(u, a);
            && Turn(s, t, turn + [a]) == Turn(s, t, turn) + (if taken then [a] else [])
            && AfterTurn(s, t, turn + [a]) == if taken then Apply(u, a) else u
    decreases turn
  {
    if turn == [] {
      assert turn + [a] == [a] && [a][1..] == [];
    } else {
      assert (turn + [a])[0] == turn[0] && (turn + [a])[1..] == turn[1..] + [a];
      if OfOthers(turn[0], t) && Enabled(s, turn[0]) {
        TurnSnoc(Apply(s, turn[0]), t, turn[1..], a);
      } else {
        TurnSnoc(s, t, turn[1..], a);
      }
    }
  }

  // ---- a call

  predicate CanMove(s: Pool, t: Tid, luck: Luck) {
    UnderWay(s, t) && Enabled(s, NextStep(s, t, luck))
  }

  function Effort(s: Pool, t: Tid): nat
    requires t < |s.pcs|
  {
    3 * Room(s) + Weight(|s.pcs|, s.pcs[t])
  }

  lemma OwnDrops(s: Pool, t: Tid, luck: Luck)
    requires PointsOk(s) && CanMove(s, t, luck)
    ensures var u := Apply(s, NextStep(s, t, luck)); |u.pcs| == |s.pcs| && Effort(u, t) < Effort(s, t)
  {
    var a := NextStep(s, t, luck);
    if !a.Signal? {
      ThreadDrops(s, a);
    }
  }

  /** The steps of a call of `t` and of the turns of others it has to wait for. */
  ghost function Play(s: Pool, t: Tid, luck: Luck, turns: seq<seq<Action>>): seq<Action>
    requires MutexOk(s) && PointsOk(s) && t < |s.pcs|
    decreases |turns|, Effort(s, t)
  {
    if CanMove(s, t, luck) then
      var a := NextStep(s, t, luck);
      PointsStep(s, a);
      OwnDrops(s, t, luck);
      [a] + Play(Apply(s, a), t, luck, turns)
    else if s.pcs[t] == Out || turns == [] then []
    else
      TurnKeeps(s, t, turns[0]);
      Turn(s, t, turns[0]) + Play(AfterTurn(s, t, turns[0]), t, luck, turns[1..])
  }

  /** Where they lead. */
  ghost function PlayEnd(s: Pool, t: Tid, luck: Luck, turns: seq<seq<Action>>): Pool
    requires MutexOk(s) && PointsOk(s) && t < |s.pcs|
    decreases |turns|, Effort(s, t)
  {
    if CanMove(s, t, luck) then
      var a := NextStep(s, t, luck);
      PointsStep(s, a);
      OwnDrops(s, t, luck);
      PlayEnd(Apply(s, a), t, luck, turns)
    else if s.pcs[t] == Out || turns == [] then s
    else
      TurnKeeps(s, t, turns[0]);
      PlayEnd(AfterTurn(s, t, turns[0]), t, luck, turns[1..])
  }

  /** One step of the caller... */
  lemma PlayOwn(s: Pool, t: Tid, luck: Luck, turns: seq<seq<Action>>)
    requires MutexOk(s) && PointsOk(s) && CanMove(s, t, luck)
    ensures var a := NextStep(s, t, luck);
            var u := Apply(s, a);
            && MutexOk(u) && PointsOk(u) && t < |u.pcs| && Effort(u, t) < Effort(s, t)
            && Play(s, t, luck, turns) == [a] + Play(u, t, luck, turns)
            && PlayEnd(s, t, luck, turns) == PlayEnd(u, t, luck, turns)
  {
    PointsStep(s, NextStep(s, t, luck));
    OwnDrops(s, t, luck);
  }

  /** ... one turn of the others... */
  lemma PlayTurn(s: Pool, t: Tid, luck: Luck, turns: seq<seq<Action>>)
    requires MutexOk(s) && PointsOk(s) && t < |s.pcs| && !CanMove(s, t, luck) && s.pcs[t] != Out && turns != []
    ensures var u := AfterTurn(s, t, turns[0]);
            && MutexOk(u) && PointsOk(u) && Stays(s, u, t)
            && Play(s, t, luck, turns) == Turn(s, t, turns[0]) + Play(u, t, luck, turns[1..])
            && PlayEnd(s, t, luck, turns) == PlayEnd(u, t, luck, turns[1..])
  {
    TurnKeeps(s, t, turns[0]);
  }

  /** ... and the end. */
  lemma PlayStops(s: Pool, t: Tid, luck: Luck, turns: seq<seq<Action>>)
    requires MutexOk(s) && PointsOk(s) && t < |s.pcs| && !CanMove(s, t, luck) && (s.pcs[t] == Out || turns == [])
    ensures Play(s, t, luck, turns) == [] && PlayEnd(s, t, luck, turns) == s
  {
  }

  lemma {:induction false} PlaySteps(s: Pool, t: Tid, luck: Luck, turns: seq<seq<Action>>)
    requires MutexOk(s) && PointsOk(s) && t < |s.pcs|
    ensures var u := PlayEnd(s, t, luck, turns);
            && Steps(s, Play(s, t, luck, turns), u)
            && MutexOk(u) && PointsOk(u) && |u.pcs| == |s.pcs|
    decreases |turns|, Effort(s, t)
  {
    hide Play, PlayEnd, NextStep, MutexOk, PointsOk, Effort;
    if CanMove(s, t, luck) {
      var a := NextStep(s, t, luck);
      PlayOwn(s, t, luck, turns);
      PlaySteps(Apply(s, a), t, luck, turns);
      RunCons(s, a, Play(Apply(s, a), t, luck, turns));
    } else if s.pcs[t] == Out || turns == [] {
      PlayStops(s, t, luck, turns);
    } else {
      var u := AfterTurn(s, t, turns[0]);
      PlayTurn(s, t, luck, turns);
      TurnSteps(s, t, turns[0]);
      PlaySteps(u, t, luck, turns[1..]);
      StepsOn(s, Turn(s, t, turns[0]), u, Play(u, t, luck, turns[1..]), PlayEnd(u, t, luck, turns[1..]));
    }
  }

  /** A call that has not returned is asleep, or kept from the mutex by another thread. */
  ghost predicate Blocked(s: Pool, t: Tid) {
    && t < |s.pcs|
    && (s.pcs[t] == Asleep || (WantsLock(s.pcs[t]) && s.mutex.Held? && s.mutex.t != t))
  }

  lemma {:induction false} PlayWaits(s: Pool, t: Tid, luck: Luck, turns: seq<seq<Action>>)
    requires MutexOk(s) && PointsOk(s) && t < |s.pcs|
    ensures var u := PlayEnd(s, t, luck, turns); t < |u.pcs| && (u.pcs[t] == Out || Blocked(u, t))
    decreases |turns|, Effort(s, t)
  {
    hide Play, PlayEnd, Effort;
    if CanMove(s, t, luck) {
      PlayOwn(s, t, luck, turns);
      PlayWaits(Apply(s, NextStep(s, t, luck)), t, luck, turns);
    } else if s.pcs[t] == Out || turns == [] {
      PlayStops(s, t, luck, turns);
      if s.pcs[t] != Out && s.pcs[t] != Asleep {
        NextStepIff(s, t, luck);
        assert Holding(s.pcs[t]) <==> s.mutex == Held(t, 1);
      }
    } else {
      PlayTurn(s, t, luck, turns);
      PlayWaits(AfterTurn(s, t, turns[0]), t, luck, turns[1..]);
    }
  }

  /**
   Waiting loses nothing: a call that has not returned after some turns goes on with further turns from
   where it is, and one that has returned needs no more.
   */
  lemma {:induction false} PlayMore(s: Pool, t: Tid, luck: Luck, turns: seq<seq<Action>>, more: seq<seq<Action>>)
    requires MutexOk(s) && PointsOk(s) && t < |s.pcs|
    ensures var u := PlayEnd(s, t, luck, turns);
            && MutexOk(u) && PointsOk(u) && t < |u.pcs|
            && Play(s, t, luck, turns + more) == Play(s, t, luck, turns) + Play(u, t, luck, more)
            && PlayEnd(s, t, luck, turns + more) == PlayEnd(u, t, luck, more)
            && (u.pcs[t] == Out ==> Play(s, t, luck, turns + more) == Play(s, t, luck, turns))
    decreases |turns|, Effort(s, t)
  {
    hide Play, PlayEnd, Effort, NextStep, MutexOk, PointsOk;
    if CanMove(s, t, luck) {
      PlayOwn(s, t, luck, turns);
      PlayOwn(s, t, luck, turns + more);
      PlayMore(Apply(s, NextStep(s, t, luck)), t, luck, turns, more);
    } else if s.pcs[t] == Out {
      PlayStops(s, t, luck, turns);
      PlayStops(s, t, luck, more);
      PlayStops(s, t, luck, turns + more);
    } else if turns == [] {
      PlayStops(s, t, luck, turns);
      assert turns + more == more;
    } else {
      assert (turns + more)[0] == turns[0] && (turns + more)[1..] == turns[1..] + more;
      PlayTurn(s, t, luck, turns);
      PlayTurn(s, t, luck, turns + more);
      PlayMore(AfterTurn(s, t, turns[0]), t, luck, turns[1..], more);
    }
  }

  lemma BlockedWaits(s: Pool, t: Tid, luck: Luck)
    requires Blocked(s, t)
    ensures !CanMove(s, t, luck) && s.pcs[t] != Out
  {
  }

  /** With the mutex free and a connection listed, a call takes the front of the list and returns. */
  lemma PlayTakes(s: Pool, t: Tid, luck: Luck, turns: seq<seq<Action>>)
    requires MutexOk(s) && PointsOk(s) && t < |s.pcs| && (s.pcs[t] == GetLock || s.pcs[t] == Woken)
    requires s.mutex == Unheld && s.free != []
    ensures Play(s, t, luck, turns) == [Lock(t), Test(t), Pop(t), Unlock(t)]
    ensures PlayEnd(s, t, luck, turns) ==
            s.(pcs := s.pcs[t := Out], free := s.free[1..], leases := s.leases + {Lease(t, s.free[0])})
  {
    hide Play, PlayEnd, Effort, MutexOk, PointsOk, GetSteps;
    var u := s.(mutex := Held(t, 1), pcs := s.pcs[t := GetTest(s.pcs[t] == Woken)]);
    PlayOwn(s, t, luck, turns);
    assert Apply(s, Lock(t)) == u;
    PlayOwn(u, t, luck, turns);
    PlayPops(Apply(u, Test(t)), t, luck, turns);
    UpdateTwice(s.pcs, t, u.pcs[t], GetPop(u.pcs[t].waited));
    UpdateTwice(s.pcs, t, GetPop(u.pcs[t].waited), Out);
    assert [Lock(t)] + ([Test(t)] + [Pop(t), Unlock(t)]) == [Lock(t), Test(t), Pop(t), Unlock(t)];
  }

  lemma PlayPops(s: Pool, t: Tid, luck: Luck, turns: seq<seq<Action>>)
    requires MutexOk(s) && PointsOk(s) && t < |s.pcs| && s.pcs[t].GetPop? && s.mutex == Held(t, 1) && s.free != []
    ensures Play(s, t, luck, turns) == [Pop(t), Unlock(t)]
    ensures PlayEnd(s, t, luck, turns) ==
            s.(mutex := Unheld, pcs := s.pcs[t := Out], free := s.free[1..],
               leases := s.leases + {Lease(t, s.free[0])})
  {
    hide Play, PlayEnd, Effort, MutexOk, PointsOk;
    var u := Apply(s, Pop(t));
    PlayOwn(s, t, luck, turns);
    PlayOwn(u, t, luck, turns);
    PlayStops(Apply(u, Unlock(t)), t, luck, turns);
    UpdateTwice(s.pcs, t, GetUnlock(s.free[0]), Out);
  }

  /** With the mutex free, a release is carried out: append unless present, wake, leave. */
  lemma PlayReleases(s: Pool, t: Tid, luck: Luck, turns: seq<seq<Action>>)
    requires MutexOk(s) && PointsOk(s) && t < |s.pcs| && s.pcs[t].RelLock? && s.mutex == Unheld
    ensures Play(s, t, luck, turns) == [Lock(t)] + RelSteps(t, Chosen(s, luck.pick))
    ensures PlayEnd(s, t, luck, turns) == RelResult(s, t, s.pcs[t].r, Chosen(s, luck.pick))
  {
    hide Play, PlayEnd, Effort, MutexOk, PointsOk, RelResult;
    var u, conn := Apply(s, Lock(t)), s.pcs[t].r;
    PlayOwn(s, t, luck, turns);
    assert Sleepers(u) == Sleepers(s);
    PlayPushes(u, t, luck, turns);
    EnterSame(s, t, conn, Chosen(s, luck.pick));
  }

  lemma EnterSame(s: Pool, t: Tid, conn: Ref, woken: set<Tid>)
    requires t < |s.pcs| && s.pcs[t] == RelLock(conn) && s.mutex == Unheld && woken <= Sleepers(s)
    ensures RelResult(Apply(s, Lock(t)), t, conn, woken) == RelResult(s, t, conn, woken)
  {
    assert Wake(s.pcs[t := RelPush(conn)], woken)[t := Out] == Wake(s.pcs, woken)[t := Out];
  }

  lemma ChosenSame(s: Pool, u: Pool, pick: set<Tid>)
    requires Sleepers(s) == Sleepers(u)
    ensures Chosen(s, pick) == Chosen(u, pick)
  {
  }

  lemma PlayPushes(s: Pool, t: Tid, luck: Luck, turns: seq<seq<Action>>)
    requires MutexOk(s) && PointsOk(s) && t < |s.pcs| && s.pcs[t].RelPush? && s.mutex == Held(t, 1)
    ensures Play(s, t, luck, turns) == RelSteps(t, Chosen(s, luck.pick))
    ensures PlayEnd(s, t, luck, turns) == RelResult(s, t, s.pcs[t].r, Chosen(s, luck.pick))
  {
    hide Play, PlayEnd, Effort, MutexOk, PointsOk, RelResult, Sleepers, Chosen;
    var woken := Chosen(s, luck.pick);
    RelTakes(s, t, s.pcs[t].r, woken);
    var u := Apply(s, Push(t));
    var v := Apply(u, Action.Signal(t, woken));
    PlayOwn(s, t, luck, turns);
    ChosenSame(s, u, luck.pick);
    PlayOwn(u, t, luck, turns);
    PlayOwn(v, t, luck, turns);
    assert Apply(v, Unlock(t)).pcs[t] == Out;
    PlayStops(Apply(v, Unlock(t)), t, luck, turns);
  }

  /** The steps of RelConn from the push on, one by one. */
  lemma RelTakes(u: Pool, t: Tid, conn: Ref, woken: set<Tid>)
    requires t < |u.pcs| && u.pcs[t] == RelPush(conn) && u.mutex == Held(t, 1)
    requires woken <= Sleepers(u) && (woken == {} ==> Sleepers(u) == {})
    ensures Enabled(u, Push(t)) && Sleepers(Apply(u, Push(t))) == Sleepers(u)
    ensures Enabled(Apply(u, Push(t)), Action.Signal(t, woken))
    ensures var v := Apply(Apply(u, Push(t)), Action.Signal(t, woken));
            Enabled(v, Unlock(t)) && Apply(v, Unlock(t)) == RelResult(u, t, conn, woken)
  {
    assert t !in Sleepers(u);
    assert Wake(u.pcs[t := RelSignal], woken)[t := RelUnlock][t := Out] == Wake(u.pcs, woken)[t := Out];
  }

  /**
   A waiting GetDBConn is served: if the others' turn leaves it awake, with the mutex free and a
   connection listed, it returns with the front of the list.
   */
  lemma TurnServes(s: Pool, t: Tid, luck: Luck, turn: seq<Action>, more: seq<seq<Action>>)
    requires MutexOk(s) && PointsOk(s) && Blocked(s, t) && !s.pcs[t].RelLock?
    requires var v := AfterTurn(s, t, turn);
             v.mutex == Unheld && v.free != [] && t < |v.pcs| && v.pcs[t] != Asleep
    ensures var v := AfterTurn(s, t, turn);
            && Play(s, t, luck, [turn] + more) == Turn(s, t, turn) + [Lock(t), Test(t), Pop(t), Unlock(t)]
            && PlayEnd(s, t, luck, [turn] + more) ==
               v.(pcs := v.pcs[t := Out], free := v.free[1..], leases := v.leases + {Lease(t, v.free[0])})
  {
    hide Play, PlayEnd, MutexOk, PointsOk;
    BlockedWaits(s, t, luck);
    assert ([turn] + more)[0] == turn && ([turn] + more)[1..] == more;
    PlayTurn(s, t, luck, [turn] + more);
    PlayTakes(AfterTurn(s, t, turn), t, luck, more);
  }

  /** A waiting RelConn is carried out once the others' turn leaves the mutex free. */
  lemma TurnReleases(s: Pool, t: Tid, luck: Luck, turn: seq<Action>, more: seq<seq<Action>>)
    requires MutexOk(s) && PointsOk(s) && Blocked(s, t) && s.pcs[t].RelLock?
    requires AfterTurn(s, t, turn).mutex == Unheld
    ensures var v := AfterTurn(s, t, turn);
            var woken := Chosen(v, luck.pick);
            && t < |v.pcs|
            && Play(s, t, luck, [turn] + more) == Turn(s, t, turn) + ([Lock(t)] + RelSteps(t, woken))
            && PlayEnd(s, t, luck, [turn] + more) == RelResult(v, t, s.pcs[t].r, woken)
  {
    hide Play, PlayEnd, MutexOk, PointsOk, RelResult;
    BlockedWaits(s, t, luck);
    assert ([turn] + more)[0] == turn && ([turn] + more)[1..] == more;
    PlayTurn(s, t, luck, [turn] + more);
    PlayReleases(AfterTurn(s, t, turn), t, luck, more);
  }

  // ---- from the call on

  /** All the steps of a call and of the others meanwhile, under the schedule `turns`. */
  ghost function CallPlan(s: Pool, call: Action, luck: Luck, turns: seq<seq<Action>>): seq<Action>
    requires MutexOk(s) && PointsOk(s) && Enabled(s, call) && (call.CallGet? || call.CallRel?)
  {
    PointsStep(s, call);
    [call] + Play(Apply(s, call), call.t, luck, turns)
  }

  /** At the call, all of its plan is still to come. */
  lemma PlanBegins(before: seq<Action>, s: Pool, call: Action, luck: Luck, turns: seq<seq<Action>>)
    requires MutexOk(s) && PointsOk(s) && Enabled(s, call) && (call.CallGet? || call.CallRel?)
    ensures var u := Apply(s, call);
            && MutexOk(u) && PointsOk(u) && call.t < |u.pcs|
            && before + [call] + Play(u, call.t, luck, turns) == before + CallPlan(s, call, luck, turns)
  {
    PointsStep(s, call);
    hide Play, MutexOk, PointsOk;
    var rest := Play(Apply(s, call), call.t, luck, turns);
    assert before + [call] + rest == before + ([call] + rest);
  }

  /** Where they lead. */
  ghost function CallEnd(s: Pool, call: Action, luck: Luck, turns: seq<seq<Action>>): Pool
    requires MutexOk(s) && PointsOk(s) && Enabled(s, call) && (call.CallGet? || call.CallRel?)
  {
    PointsStep(s, call);
    PlayEnd(Apply(s, call), call.t, luck, turns)
  }

  lemma CallSteps(s: Pool, call: Action, luck: Luck, turns: seq<seq<Action>>)
    requires MutexOk(s) && PointsOk(s) && Enabled(s, call) && (call.CallGet? || call.CallRel?)
    ensures Steps(s, CallPlan(s, call, luck, turns), CallEnd(s, call, luck, turns))
    ensures var u := CallEnd(s, call, luck, turns); MutexOk(u) && PointsOk(u) && |u.pcs| == |s.pcs|
  {
    PointsStep(s, call);
    PlaySteps(Apply(s, call), call.t, luck, turns);
    RunCons(s, call, Play(Apply(s, call), call.t, luck, turns));
  }

  /** The point the call is at in the end: outside again, or where it came in, or asleep or just awake. */
  lemma {:induction false} GetEnds(s: Pool, t: Tid, luck: Luck, turns: seq<seq<Action>>)
    requires MutexOk(s) && PointsOk(s) && t < |s.pcs| && !s.pcs[t].RelLock? && !s.pcs[t].RelPush?
    requires s.pcs[t] != RelSignal && s.pcs[t] != RelUnlock
    ensures var u := PlayEnd(s, t, luck, turns); t < |u.pcs| && !u.pcs[t].RelLock?
    decreases |turns|, Effort(s, t)
  {
    hide Play, PlayEnd, Effort, MutexOk, PointsOk;
    if CanMove(s, t, luck) {
      PlayOwn(s, t, luck, turns);
      GetEnds(Apply(s, NextStep(s, t, luck)), t, luck, turns);
    } else if s.pcs[t] == Out || turns == [] {
      PlayStops(s, t, luck, turns);
    } else {
      PlayTurn(s, t, luck, turns);
      CannotMove(s, t, luck);
      GetEnds(AfterTurn(s, t, turns[0]), t, luck, turns[1..]);
    }
  }

  lemma CannotMove(s: Pool, t: Tid, luck: Luck)
    requires MutexOk(s) && PointsOk(s) && t < |s.pcs| && s.pcs[t] != Out && !CanMove(s, t, luck)
    ensures Blocked(s, t)
  {
    if s.pcs[t] != Asleep {
      NextStepIff(s, t, luck);
      assert Holding(s.pcs[t]) <==> s.mutex == Held(t, 1);
    }
  }

  /**
   GetDBConn is served: if after some turns the call waits, and the next turn leaves it awake, with the
   mutex free and a connection listed, it takes the front of the list and returns, whatever the schedule
   holds after that.
   */
  lemma GetIsServed(s: Pool, t: Tid, luck: Luck, turns: seq<seq<Action>>, turn: seq<Action>, more: seq<seq<Action>>)
    requires MutexOk(s) && PointsOk(s) && Enabled(s, CallGet(t))
    requires var u := CallEnd(s, CallGet(t), luck, turns);
             var v := AfterTurn(u, t, turn);
             Blocked(u, t) && v.mutex == Unheld && v.free != [] && t < |v.pcs| && v.pcs[t] != Asleep
    ensures var u := CallEnd(s, CallGet(t), luck, turns);
            var v := AfterTurn(u, t, turn);
            && CallPlan(s, CallGet(t), luck, turns + ([turn] + more)) ==
               CallPlan(s, CallGet(t), luck, turns) + (Turn(u, t, turn) + [Lock(t), Test(t), Pop(t), Unlock(t)])
            && CallEnd(s, CallGet(t), luck, turns + ([turn] + more)) ==
               v.(pcs := v.pcs[t := Out], free := v.free[1..], leases := v.leases + {Lease(t, v.free[0])})
  {
    PointsStep(s, CallGet(t));
    var s1 := Apply(s, CallGet(t));
    GetEnds(s1, t, luck, turns);
    PlayMore(s1, t, luck, turns, [turn] + more);
    hide Play, PlayEnd, MutexOk, PointsOk;
    TurnServes(PlayEnd(s1, t, luck, turns), t, luck, turn, more);
    var u := PlayEnd(s1, t, luck, turns);
    assert [CallGet(t)] + (Play(s1, t, luck, turns) + Play(u, t, luck, [turn] + more)) ==
           [CallGet(t)] + Play(s1, t, luck, turns) + Play(u, t, luck, [turn] + more);
  }

  /** RelConn is carried out: if the call waits, and the next turn leaves the mutex free. */
  lemma RelIsCarriedOut(s: Pool, t: Tid, r: Ref, luck: Luck, turn: seq<Action>, more: seq<seq<Action>>)
    requires MutexOk(s) && PointsOk(s) && Enabled(s, CallRel(t, r)) && s.mutex.Held? && s.mutex.t != t
    requires AfterTurn(Apply(s, CallRel(t, r)), t, turn).mutex == Unheld
    ensures var v := AfterTurn(Apply(s, CallRel(t, r)), t, turn);
            && t < |v.pcs|
            && CallEnd(s, CallRel(t, r), luck, [turn] + more) == RelResult(v, t, r, Chosen(v, luck.pick))
  {
    PointsStep(s, CallRel(t, r));
    hide Play, PlayEnd, MutexOk, PointsOk, RelResult;
    TurnReleases(Apply(s, CallRel(t, r)), t, luck, turn, more);
  }

  /** Which connection a call that ends so has returned. */
  lemma ValueServed(origin: Pool, upto: seq<Action>, u: Pool, t: Tid, connects: bool, mid: seq<Action>, v: Pool)
    requires Steps(origin, upto, u) && t < |u.pcs| && (u.free != [] || u.cur < u.max)
    requires Steps(origin, mid, v) && v.free != [] && Enabled(v, Lock(t))
    requires upto + GetSteps(u, t, connects) == mid + [Lock(t), Test(t), Pop(t), Unlock(t)]
    ensures GetValue(u, connects) == v.free[0]
  {
    var a, b := upto + GetSteps(u, t, connects), mid + [Lock(t), Test(t), Pop(t), Unlock(t)];
    var n := |a|;
    assert a[n - 1] == b[n - 1] && a[n - 2] == b[n - 2] == Pop(t) && b[n - 4] == Lock(t);
    if u.free != [] {
      assert upto == a[..n - 3] == b[..n - 3] == mid + [Lock(t)];
      StepsSnoc(origin, mid, v, Lock(t));
    }
  }

  lemma ServedSteps(s: Pool, t: Tid, luck: Luck, turns: seq<seq<Action>>, turn: seq<Action>)
    requires MutexOk(s) && PointsOk(s) && Enabled(s, CallGet(t))
    requires var u := CallEnd(s, CallGet(t), luck, turns);
             var v := AfterTurn(u, t, turn);
             Blocked(u, t) && v.mutex == Unheld && t < |v.pcs| && v.pcs[t] != Asleep
    ensures var u := CallEnd(s, CallGet(t), luck, turns);
            && Steps(s, CallPlan(s, CallGet(t), luck, turns), u)
            && Steps(u, Turn(u, t, turn), AfterTurn(u, t, turn)) && Enabled(AfterTurn(u, t, turn), Lock(t))
  {
    var u := CallEnd(s, CallGet(t), luck, turns);
    CallSteps(s, CallGet(t), luck, turns);
    TurnSteps(u, t, turn);
    TurnKeeps(u, t, turn);
  }

  /** The same for a call that did as GetIsServed says, and took effect in `w` after `before`. */
  lemma ServedValue(origin: Pool, start: seq<Action>, s: Pool, t: Tid, connects: bool, turns: seq<seq<Action>>,
                    turn: seq<Action>, more: seq<seq<Action>>, before: seq<Action>, w: Pool)
    requires MutexOk(s) && PointsOk(s) && Enabled(s, CallGet(t)) && Steps(origin, start, s)
    requires var u := CallEnd(s, CallGet(t), Luck(connects, {}), turns);
             var v := AfterTurn(u, t, turn);
             Blocked(u, t) && v.mutex == Unheld && v.free != [] && t < |v.pcs| && v.pcs[t] != Asleep
    requires Steps(origin, start + before, w) && t < |w.pcs| && (w.free != [] || w.cur < w.max)
    requires start + before + GetSteps(w, t, connects) ==
             start + CallPlan(s, CallGet(t), Luck(connects, {}), turns + ([turn] + more))
    ensures GetValue(w, connects) == AfterTurn(CallEnd(s, CallGet(t), Luck(connects, {}), turns), t, turn).free[0]
  {
    hide *;
    var luck := Luck(connects, {});
    var u, plan := CallEnd(s, CallGet(t), luck, turns), CallPlan(s, CallGet(t), luck, turns);
    var v, did := AfterTurn(u, t, turn), Turn(u, t, turn);
    GetIsServed(s, t, luck, turns, turn, more);
    ServedSteps(s, t, luck, turns, turn);
    StepsOn(origin, start, s, plan, u);
    StepsOn(origin, start + plan, u, did, v);
    assert start + (plan + (did + [Lock(t), Test(t), Pop(t), Unlock(t)])) ==
           start + plan + did + [Lock(t), Test(t), Pop(t), Unlock(t)];
    ValueServed(origin, start + before, w, t, connects, start + plan + did, v);
  }

  /** What is left of a plan after a step of the caller. */
  lemma PlanOwn(before: seq<Action>, s: Pool, t: Tid, luck: Luck, turns: seq<seq<Action>>, plan: seq<Action>)
    requires MutexOk(s) && PointsOk(s) && CanMove(s, t, luck) && before + Play(s, t, luck, turns) == plan
    ensures var a := NextStep(s, t, luck);
            var u := Apply(s, a);
            && MutexOk(u) && PointsOk(u) && t < |u.pcs|
            && before + [a] + Play(u, t, luck, turns) == plan
  {
    hide Play, MutexOk, PointsOk;
    PlayOwn(s, t, luck, turns);
    var rest := Play(Apply(s, NextStep(s, t, luck)), t, luck, turns);
    assert before + [NextStep(s, t, luck)] + rest == before + ([NextStep(s, t, luck)] + rest);
  }

  /** What is left of it after a turn of the others. */
  lemma PlanTurn(before: seq<Action>, s: Pool, t: Tid, luck: Luck, turns: seq<seq<Action>>, k: nat, plan: seq<Action>)
    requires MutexOk(s) && PointsOk(s) && Blocked(s, t) && k < |turns|
    requires before + Play(s, t, luck, turns[k..]) == plan
    ensures var u := AfterTurn(s, t, turns[k]);
            && MutexOk(u) && PointsOk(u) && t < |u.pcs| && Stays(s, u, t)
            && before + Turn(s, t, turns[k]) + Play(u, t, luck, turns[k + 1..]) == plan
  {
    hide Play, MutexOk, PointsOk;
    BlockedWaits(s, t, luck);
    assert turns[k..][0] == turns[k] && turns[k..][1..] == turns[k + 1..];
    PlayTurn(s, t, luck, turns[k..]);
    var rest := Play(AfterTurn(s, t, turns[k]), t, luck, turns[k + 1..]);
    assert before + Turn(s, t, turns[k]) + rest == before + (Turn(s, t, turns[k]) + rest);
  }

  /** A plan whose caller has returned, or waits with no turn left, is carried out. */
  lemma PlanDone(before: seq<Action>, s: Pool, t: Tid, luck: Luck, turns: seq<seq<Action>>, plan: seq<Action>)
    requires MutexOk(s) && PointsOk(s) && t < |s.pcs| && before + Play(s, t, luck, turns) == plan
    requires s.pcs[t] == Out || (Blocked(s, t) && turns == [])
    ensures before == plan
  {
    hide Play, MutexOk, PointsOk;
    PlayStops(s, t, luck, turns);
  }
}
