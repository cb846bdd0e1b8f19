/**
 Whole runs of the timer, on values: which timers are pending, which fired and when, which were
 cancelled, and that each fires in order and on time.
 */
module TimerRuns {
  import opened TimerSpec
  import opened TimerExpiry

  /** A firing: the timer and the clock reading of the expiry that fired it. */
  datatype Firing = Firing(timer: Timer, now: nat)

  /** What the driver can do; a cancellation names a timer by its number in the order of addition. */
  datatype Event =
    | AddEvent(r: Request)
    | CancelEvent(k: nat)
    | ExpireEvent(now: uint32, h: Handlers)

  datatype World = World(book: Book, log: seq<Firing>, cancelled: seq<Timer>)

  function Stamped(fired: seq<Timer>, now: nat): (log: seq<Firing>)
    ensures |log| == |fired|
    ensures forall i :: 0 <= i < |log| ==> log[i] == Firing(fired[i], now)
  {
    seq(|fired|, i requires 0 <= i < |fired| => Firing(fired[i], now))
  }

  function Fired(log: seq<Firing>): (ts: seq<Timer>)
    ensures |ts| == |log|
    ensures forall i :: 0 <= i < |ts| ==> ts[i] == log[i].timer
  {
    seq(|log|, i requires 0 <= i < |log| => log[i].timer)
  }

  /** The timer a removal by score takes out, if any. */
  function Taken(ts: seq<Timer>, score: nat): seq<Timer> {
    var k := Rank(ts, score);
    if k < |ts| && ts[k].score == score then [ts[k]] else []
  }

  /** An expiry can be stepped over if its loop ends. */
  ghost predicate StepOk(w: World, e: Event) {
    e.ExpireEvent? ==> Halts(w.book, e.now, e.h)
  }

  ghost function Step(w: World, e: Event): World
    requires StepOk(w, e)
  {
    match e
    case AddEvent(r) => w.(book := w.book.Add(r))
    case CancelEvent(k) =>
      if k < |w.book.added| then
        var score := w.book.added[k].score;
        w.(book := w.book.(pending := Remove(w.book.pending, score)),
           cancelled := w.cancelled + Taken(w.book.pending, score))
      else w
    case ExpireEvent(now, h) => Reached(w, now, Expire(w.book, now, h))
  }

  /** The world in the middle, or at the end, of an expiry at `now` that started in `w`. */
  function Reached(w: World, now: nat, e: Expiry): World {
    w.(book := e.book, log := w.log + Stamped(e.fired, now))
  }

  /** Every expiry of the run ends. */
  ghost predicate Runnable(es: seq<Event>)
    decreases |es|, 0
  {
    es == [] || (Runnable(es[..|es| - 1]) && StepOk(Run(es[..|es| - 1]), es[|es| - 1]))
  }

  ghost function Run(es: seq<Event>): World
    requires Runnable(es)
    decreases |es|, 1
  {
    if es == [] then World(Book([], [], []), [], [])
    else Step(Run(es[..|es| - 1]), es[|es| - 1])
  }

  /** The latest clock reading of an addition or expiry. */
  function Clock(es: seq<Event>): nat {
    if es == [] then 0
    else
      match es[|es| - 1]
      case AddEvent(r) => r.clock
      case CancelEvent(_) => Clock(es[..|es| - 1])
      case ExpireEvent(now, _) => now
  }

  /** The clock does not run backwards or leave the lower half of its range, and handlers look ahead. */
  ghost predicate Fits(es: seq<Event>) {
    es == [] ||
    (Fits(es[..|es| - 1]) &&
     var clock := Clock(es[..|es| - 1]);
     match es[|es| - 1]
     case AddEvent(r) => clock <= r.clock && InRange(r)
     case CancelEvent(_) => true
     case ExpireEvent(now, h) => clock <= now && LooksAhead(now, h))
  }

  ghost predicate LogInOrder(log: seq<Firing>) {
    forall i, j :: 0 <= i < j < |log| ==> log[i].timer.score <= log[j].timer.score
  }

  /** The log is in order of score, nothing fired early, and nothing pending should have fired before. */
  ghost predicate InTime(w: World, clock: nat) {
    && LogInOrder(w.log)
    && (forall f <- w.log :: f.timer.score <= f.now <= clock)
    && (forall f, t :: f in w.log && t in w.book.pending ==> f.timer.score <= t.score)
  }

  ghost predicate Inv(w: World, clock: nat) {
    w.book.Sound() && InTime(w, clock)
  }

  lemma AddKeepsInv(w: World, clock: nat, r: Request)
    requires Inv(w, clock) && clock <= r.clock && InRange(r)
    ensures Inv(Step(w, AddEvent(r)), r.clock)
  {
    var b := w.book;
    AddSound(b, r);
    forall f, t | f in w.log && t in b.Add(r).pending
      ensures f.timer.score <= t.score
    {
      assert t in b.pending || t == b.NewTimer(r);
    }
  }

  lemma CancelKeepsInv(w: World, clock: nat, k: nat)
    requires Inv(w, clock)
    ensures Inv(Step(w, CancelEvent(k)), clock)
  {
    if k < |w.book.added| {
      var ts, score := w.book.pending, w.book.added[k].score;
      RemoveKeepsOrder(ts, score);
      forall t <- Remove(ts, score)
        ensures t in ts
      {
      }
    }
  }

  lemma StampedNext(log: seq<Firing>, fired: seq<Timer>, x: Timer, now: nat)
    ensures log + Stamped(fired + [x], now) == log + Stamped(fired, now) + [Firing(x, now)]
  {
    assert Stamped(fired + [x], now) == Stamped(fired, now) + [Firing(x, now)];
  }

  /** One more firing, of the head, keeps the log in order. */
  lemma LogNext(log: seq<Firing>, x: Timer, now: nat)
    requires LogInOrder(log) && forall f <- log :: f.timer.score <= x.score
    ensures LogInOrder(log + [Firing(x, now)])
  {
    forall i | 0 <= i < |log|
      ensures log[i].timer.score <= x.score
    {
      assert log[i] in log;
    }
  }

  /** One pass: the head, the earliest of all, goes to the log, and what comes in is later. */
  lemma PassKeepsInv(w: World, now: uint32, rs: seq<Request>)
    requires Inv(w, now) && HeadDue(w.book, now) && Later(w.book.pending[0].score, rs)
    ensures Inv(World(Pass(w.book, rs), w.log + [Firing(w.book.pending[0], now)], w.cancelled), now)
  {
    var b, x, p := w.book, w.book.pending[0], Pass(w.book, rs);
    PassIsDrop(b, rs);
    assert x in b.pending;
    LogNext(w.log, x, now);
    forall t <- Drop(b, 1).pending
      ensures x.score <= t.score
    {
      var i :| 0 < i < |b.pending| && b.pending[i] == t;
      assert Before(b.pending[0], b.pending[i]);
    }
    AddAllAtLeast(Drop(b, 1), x.score, rs);
    assert forall f <- w.log :: f.timer.score <= x.score;
  }

  /** Every state of the loop, finished or not, keeps the invariant. */
  lemma {:induction false} PassesKeepInv(w: World, clock: nat, now: uint32, h: Handlers, n: nat)
    requires Inv(w, clock) && clock <= now && LooksAhead(now, h)
    ensures Inv(Reached(w, now, Passes(w.book, now, h, n)), now)
  {
    hide Passes, Pass;
    if n == 0 {
      PassesNone(w.book, now, h);
      assert w.log + Stamped([], now) == w.log;
    } else {
      var e := Passes(w.book, now, h, n - 1);
      PassesKeepInv(w, clock, now, h, n - 1);
      if HeadDue(e.book, now) {
        var x := e.book.pending[0];
        PassesNext(w.book, now, h, n - 1);
        PassKeepsInv(Reached(w, now, e), now, h(n - 1, x.score));
        StampedNext(w.log, e.fired, x, now);
      } else {
        PassesStay(w.book, now, h, n - 1, n);
      }
    }
  }

  lemma ExpireKeepsInv(w: World, clock: nat, now: uint32, h: Handlers)
    requires Inv(w, clock) && clock <= now && LooksAhead(now, h)
    ensures Halts(w.book, now, h) && Inv(Step(w, ExpireEvent(now, h)), now)
    ensures forall t <- Step(w, ExpireEvent(now, h)).book.pending :: now < t.score
  {
    LooksAheadHalts(w.book, now, h);
    var n := ExpireAfter(w.book, now, h);
    PassesKeepInv(w, clock, now, h, n);
    NoneDue(Passes(w.book, now, h, n).book, now);
  }

  /** If the head is not due, nothing is. */
  lemma NoneDue(b: Book, now: uint32)
    requires b.Sound() && !HeadDue(b, now)
    ensures forall t <- b.pending :: now < t.score
  {
    forall t <- b.pending
      ensures now < t.score
    {
      var i :| 0 <= i < |b.pending| && b.pending[i] == t;
      assert i == 0 || Before(b.pending[0], b.pending[i]);
    }
  }

  lemma {:induction false} RunKeepsInv(es: seq<Event>)
    requires Fits(es)
    ensures Runnable(es) && Inv(Run(es), Clock(es))
  {
    if es != [] {
      var before, e := es[..|es| - 1], es[|es| - 1];
      RunKeepsInv(before);
      match e
      case AddEvent(r) => AddKeepsInv(Run(before), Clock(before), r);
      case CancelEvent(k) => CancelKeepsInv(Run(before), Clock(before), k);
      case ExpireEvent(now, h) => ExpireKeepsInv(Run(before), Clock(before), now, h);
    }
  }

  // ---- every timer added is pending, fired or cancelled, exactly once

  function Times(ts: seq<Timer>, t: Timer): nat {
    if ts == [] then 0 else (if ts[0] == t then 1 else 0) + Times(ts[1..], t)
  }

  lemma {:induction false} TimesConcat(ts: seq<Timer>, us: seq<Timer>, t: Timer)
    ensures Times(ts + us, t) == Times(ts, t) + Times(us, t)
  {
    if ts == [] {
      assert ts + us == us;
    } else {
      assert (ts + us)[1..] == ts[1..] + us;
      TimesConcat(ts[1..], us, t);
    }
  }

  lemma TimesInsert(ts: seq<Timer>, u: Timer, key: nat, t: Timer)
    ensures Times(Insert(ts, u, key), t) == Times(ts, t) + Times([u], t)
  {
    var k := Rank(ts, key);
    TimesConcat(ts[..k] + [u], ts[k..], t);
    TimesConcat(ts[..k], [u], t);
    TimesConcat(ts[..k], ts[k..], t);
    assert ts[..k] + ts[k..] == ts;
  }

  lemma TimesRemove(ts: seq<Timer>, score: nat, t: Timer)
    ensures Times(ts, t) == Times(Remove(ts, score), t) + Times(Taken(ts, score), t)
  {
    var k := Rank(ts, score);
    if k < |ts| && ts[k].score == score {
      TimesConcat(ts[..k] + [ts[k]], ts[k + 1..], t);
      TimesConcat(ts[..k], [ts[k]], t);
      TimesConcat(ts[..k], ts[k + 1..], t);
      assert ts[..k] + [ts[k]] + ts[k + 1..] == ts;
    }
  }

  /** Additions enter the queue and the record alike. */
  lemma {:induction false} TimesAddAll(b: Book, rs: seq<Request>, t: Timer)
    ensures Times(b.AddAll(rs).pending, t) - Times(b.pending, t) == Times(b.AddAll(rs).added, t) - Times(b.added, t)
    decreases rs
  {
    if rs != [] {
      TimesInsert(b.pending, b.NewTimer(rs[0]), rs[0].Key(), t);
      TimesConcat(b.added, [b.NewTimer(rs[0])], t);
      TimesAddAll(b.Add(rs[0]), rs[1..], t);
    }
  }

  ghost predicate Balanced(w: World, t: Timer) {
    Times(w.book.added, t) == Times(w.book.pending, t) + Times(Fired(w.log), t) + Times(w.cancelled, t)
  }

  lemma FiredAppend(log: seq<Firing>, fired: seq<Timer>, now: nat)
    ensures Fired(log + Stamped(fired, now)) == Fired(log) + fired
  {
  }

  /** What a pass takes from the queue it puts in the log. */
  lemma PassTimes(b: Book, rs: seq<Request>, t: Timer)
    requires b.Sound() && b.pending != [] && Later(b.pending[0].score, rs)
    ensures Times(Pass(b, rs).pending, t) + Times([b.pending[0]], t) - Times(b.pending, t) ==
            Times(Pass(b, rs).added, t) - Times(b.added, t)
  {
    PassIsDrop(b, rs);
    TimesAddAll(Drop(b, 1), rs, t);
    TimesConcat([b.pending[0]], b.pending[1..], t);
    assert [b.pending[0]] + b.pending[1..] == b.pending;
  }

  lemma {:induction false} PassesTimes(b: Book, now: uint32, h: Handlers, n: nat, t: Timer)
    requires b.Sound() && LooksAhead(now, h)
    ensures var e := Passes(b, now, h, n);
            Times(e.book.pending, t) + Times(e.fired, t) - Times(b.pending, t) ==
            Times(e.book.added, t) - Times(b.added, t)
  {
    hide Passes, Pass, Times;
    if n == 0 {
      PassesNone(b, now, h);
      TimesNone([], t);
    } else {
      var e := Passes(b, now, h, n - 1);
      PassesTimes(b, now, h, n - 1, t);
      AheadFits(now, h);
      PassesSound(b, now, h, n - 1);
      if HeadDue(e.book, now) {
        var x := e.book.pending[0];
        PassesNext(b, now, h, n - 1);
        PassTimes(e.book, h(n - 1, x.score), t);
        TimesConcat(e.fired, [x], t);
      } else {
        PassesStay(b, now, h, n - 1, n);
      }
    }
  }

  lemma ExpireBalanced(w: World, now: uint32, h: Handlers, t: Timer)
    requires w.book.Sound() && LooksAhead(now, h) && Halts(w.book, now, h) && Balanced(w, t)
    ensures Balanced(Step(w, ExpireEvent(now, h)), t)
  {
    var n := ExpireAfter(w.book, now, h);
    var e := Passes(w.book, now, h, n);
    PassesTimes(w.book, now, h, n, t);
    FiredAppend(w.log, e.fired, now);
    TimesConcat(Fired(w.log), e.fired, t);
  }

  lemma StepBalanced(w: World, e: Event, t: Timer)
    requires w.book.Sound() && Balanced(w, t) && StepOk(w, e)
    requires e.ExpireEvent? ==> LooksAhead(e.now, e.h)
    ensures Balanced(Step(w, e), t)
  {
    match e
    case AddEvent(r) =>
      TimesInsert(w.book.pending, w.book.NewTimer(r), r.Key(), t);
      TimesConcat(w.book.added, [w.book.NewTimer(r)], t);
    case CancelEvent(k) =>
      if k < |w.book.added| {
        var score := w.book.added[k].score;
        TimesRemove(w.book.pending, score, t);
        TimesConcat(w.cancelled, Taken(w.book.pending, score), t);
      }
    case ExpireEvent(now, h) =>
      ExpireBalanced(w, now, h, t);
  }

  lemma {:induction false} RunBalanced(es: seq<Event>, t: Timer)
    requires Fits(es)
    ensures Runnable(es) && Balanced(Run(es), t)
  {
    if es != [] {
      var before := es[..|es| - 1];
      RunKeepsInv(es);
      RunKeepsInv(before);
      RunBalanced(before, t);
      StepBalanced(Run(before), es[|es| - 1], t);
    }
  }

  lemma {:induction false} TimesOnce(ts: seq<Timer>, first: nat, k: nat)
    requires k < |ts| && forall i :: 0 <= i < |ts| ==> ts[i].stamp == first + i
    ensures Times(ts, ts[k]) == 1
  {
    if k == 0 {
      TimesNone(ts[1..], ts[0]);
    } else {
      TimesOnce(ts[1..], first + 1, k - 1);
    }
  }

  lemma {:induction false} TimesNone(ts: seq<Timer>, t: Timer)
    requires t !in ts
    ensures Times(ts, t) == 0
  {
    if ts != [] {
      TimesNone(ts[1..], t);
    }
  }

  // ---- the main results about whole runs

  /** Every firing of a run was asked for, and by the time of its firing unless its deadline wrapped. */
  lemma {:induction false} RunTimely(es: seq<Event>)
    requires Runnable(es)
    ensures Recorded(Run(es).book) && forall f <- Run(es).log :: Timely(Run(es).book.asked, f.timer, f.now)
    decreases |es|
  {
    if es != [] {
      var before, e := Run(es[..|es| - 1]), es[|es| - 1];
      RunTimely(es[..|es| - 1]);
      StepTimely(before, e);
    }
  }

  lemma StepTimely(w: World, e: Event)
    requires StepOk(w, e) && Recorded(w.book) && forall f <- w.log :: Timely(w.book.asked, f.timer, f.now)
    ensures Recorded(Step(w, e).book)
    ensures forall f <- Step(w, e).log :: Timely(Step(w, e).book.asked, f.timer, f.now)
  {
    match e
    case AddEvent(r) =>
      AddRecorded(w.book, r);
      forall f <- w.log
        ensures Timely(w.book.Add(r).asked, f.timer, f.now)
      {
        TimelyGrows(w.book.asked, w.book.Add(r).asked, f.timer, f.now);
      }
    case CancelEvent(k) =>
      if k < |w.book.added| {
        forall t <- Remove(w.book.pending, w.book.added[k].score)
          ensures t in w.book.pending
        {
        }
      }
    case ExpireEvent(now, h) =>
      var n := ExpireAfter(w.book, now, h);
      PassesTimely(w.book, now, h, n);
      ReachedTimely(w, now, Passes(w.book, now, h, n));
  }

  lemma ReachedTimely(w: World, now: nat, e: Expiry)
    requires w.book.asked <= e.book.asked && forall f <- w.log :: Timely(w.book.asked, f.timer, f.now)
    requires forall x <- e.fired :: Timely(e.book.asked, x, now)
    ensures forall f <- Reached(w, now, e).log :: Timely(e.book.asked, f.timer, f.now)
  {
    forall f <- Reached(w, now, e).log
      ensures Timely(e.book.asked, f.timer, f.now)
    {
      if f in w.log {
        TimelyGrows(w.book.asked, e.book.asked, f.timer, f.now);
      } else {
        var i :| 0 <= i < |e.fired| && Stamped(e.fired, now)[i] == f;
        assert e.fired[i] in e.fired;
      }
    }
  }

  /**
   Over any run whose expiries end, whatever clocks, delays and handlers do: what fires is the timer of
   some request, and fires no earlier than this asked for exactly if delay and clock did not add up to
   2^32 or more.
   */
  lemma NothingFiresEarly(es: seq<Event>)
    requires Runnable(es)
    ensures var w := Run(es);
            forall f <- w.log ::
              && 1 <= f.timer.stamp <= |w.book.asked|
              && var r := w.book.asked[f.timer.stamp - 1];
                 && f.timer == Timer(f.timer.stamp, Stored(r.Key()), r.handler)
                 && (r.mesc + r.clock <= f.now <==> r.mesc + r.clock < U32)
  {
    RunTimely(es);
  }

  /**
   Over any fitting run the firing log is in order of score, no timer fires before its score, nor before
   the time asked for if that is in range, and the pending queue is in order: by score, newest first
   among equals.
   */
  lemma RunsFireInOrder(es: seq<Event>)
    requires Fits(es)
    ensures Runnable(es)
    ensures var w := Run(es);
            && (forall i, j :: 0 <= i < j < |w.log| ==> w.log[i].timer.score <= w.log[j].timer.score)
            && (forall f <- w.log :: f.timer.score <= f.now)
            && (forall f <- w.log :: 1 <= f.timer.stamp <= |w.book.asked|)
            && (forall f <- w.log ::
                  var r := w.book.asked[f.timer.stamp - 1];
                  InRange(r) ==> r.mesc + r.clock == f.timer.score <= f.now)
            && Ordered(w.book.pending)
  {
    RunKeepsInv(es);
    RunTimely(es);
    var w := Run(es);
    forall f <- w.log
      ensures 1 <= f.timer.stamp <= |w.book.asked|
      ensures var r := w.book.asked[f.timer.stamp - 1]; InRange(r) ==> r.mesc + r.clock == f.timer.score
    {
      assert Timely(w.book.asked, f.timer, f.now);
      DueTimeIff(w.book.asked[f.timer.stamp - 1]);
    }
  }

  /** Every timer ever added is, counted over the three, exactly once pending, fired or cancelled. */
  lemma EveryTimerOnce(es: seq<Event>)
    requires Fits(es)
    ensures Runnable(es)
    ensures var w := Run(es);
            forall t <- w.book.added ::
              Times(w.book.pending, t) + Times(Fired(w.log), t) + Times(w.cancelled, t) == 1
  {
    RunKeepsInv(es);
    var w := Run(es);
    forall t <- w.book.added
      ensures Times(w.book.pending, t) + Times(Fired(w.log), t) + Times(w.cancelled, t) == 1
    {
      var k :| 0 <= k < |w.book.added| && w.book.added[k] == t;
      RunBalanced(es, t);
      TimesOnce(w.book.added, 1, k);
    }
  }

  /** An expiry leaves nothing due behind. */
  lemma NothingDueRemains(es: seq<Event>, now: uint32, h: Handlers)
    requires Fits(es + [ExpireEvent(now, h)])
    ensures Runnable(es + [ExpireEvent(now, h)])
    ensures forall t <- Run(es + [ExpireEvent(now, h)]).book.pending :: now < t.score
  {
    var all := es + [ExpireEvent(now, h)];
    assert all[..|all| - 1] == es;
    RunKeepsInv(es);
    ExpireKeepsInv(Run(es), Clock(es), now, h);
  }

  /**
   Cancelling a pending timer takes out the newest pending timer with its score; so it takes out the
   timer meant exactly when that one is the newest, in particular when no other has its score.
   */
  lemma CancelTakesNewest(es: seq<Event>, k: nat)
    requires Fits(es)
    ensures Runnable(es) && Runnable(es + [CancelEvent(k)])
    ensures var w, u := Run(es), Run(es + [CancelEvent(k)]);
            k < |w.book.added| && w.book.added[k] in w.book.pending ==>
              var t := w.book.added[k];
              exists v <- w.book.pending ::
                && v.score == t.score && IsNewest(w.book.pending, v)
                && u.cancelled == w.cancelled + [v] && v !in u.book.pending
                && (v == t <==> IsNewest(w.book.pending, t))
  {
    var all := es + [CancelEvent(k)];
    assert all[..|all| - 1] == es;
    RunKeepsInv(es);
    var w := Run(es);
    if k < |w.book.added| && w.book.added[k] in w.book.pending {
      RemoveTakesNewest(w.book.pending, w.book.added[k]);
    }
  }

  // ---- what each event does to a run

  lemma RunSnoc(es: seq<Event>, e: Event)
    requires Runnable(es) && StepOk(Run(es), e)
    ensures Runnable(es + [e]) && Run(es + [e]) == Step(Run(es), e)
  {
    assert (es + [e])[..|es|] == es;
  }

  lemma {:induction false} PrefixRunnable(es: seq<Event>, more: seq<Event>)
    requires Runnable(es + more)
    ensures Runnable(es)
    decreases more
  {
    if more == [] {
      assert es + more == es;
    } else {
      var all := es + more;
      assert all[..|all| - 1] == es + more[..|more| - 1];
      PrefixRunnable(es, more[..|more| - 1]);
    }
  }

  /** An addition puts exactly one timer more into the queue: the one asked for. */
  lemma AddTakesEffect(es: seq<Event>, r: Request)
    requires Runnable(es)
    ensures Runnable(es + [AddEvent(r)])
    ensures var w, u := Run(es), Run(es + [AddEvent(r)]);
            var t := Timer(|w.book.added| + 1, Stored(r.Key()), r.handler);
            && u.book.asked == w.book.asked + [r] && u.book.added == w.book.added + [t]
            && multiset(u.book.pending) == multiset(w.book.pending) + multiset{t}
            && u.log == w.log && u.cancelled == w.cancelled
  {
    RunSnoc(es, AddEvent(r));
    var b := Run(es).book;
    assert b.pending == b.pending[..Rank(b.pending, r.Key())] + b.pending[Rank(b.pending, r.Key())..];
  }

  /** An expiry adds to the log, and what the handlers of the timers it fires ask for, in order. */
  lemma ExpireTakesEffect(es: seq<Event>, now: uint32, h: Handlers)
    requires Runnable(es + [ExpireEvent(now, h)])
    ensures Runnable(es)
    ensures var w, u := Run(es), Run(es + [ExpireEvent(now, h)]);
            && w.log <= u.log && u.cancelled == w.cancelled
            && (forall f <- u.log[|w.log|..] :: f.now == now)
            && u.book.asked == w.book.asked + AskedBy(h, Fired(u.log[|w.log|..]))
  {
    var all := es + [ExpireEvent(now, h)];
    assert all[..|all| - 1] == es;
    var w := Run(es);
    var n := ExpireAfter(w.book, now, h);
    var e := Passes(w.book, now, h, n);
    PassesAsked(w.book, now, h, n);
    var firings := Run(all).log[|w.log|..];
    assert firings == Stamped(e.fired, now);
    assert Fired(firings) == e.fired;
  }

  /**
   A cancellation of a timer added takes out the newest pending timer with its score and nothing else;
   if there is none, or no such timer was added, it does nothing.
   */
  lemma CancelTakesEffect(es: seq<Event>, k: nat)
    requires Fits(es)
    ensures Runnable(es) && Runnable(es + [CancelEvent(k)])
    ensures var w, u := Run(es), Run(es + [CancelEvent(k)]);
            && u.log == w.log && u.book.added == w.book.added && u.book.asked == w.book.asked
            && if k < |w.book.added| && exists v <- w.book.pending :: v.score == w.book.added[k].score
               then exists v <- w.book.pending ::
                 && v.score == w.book.added[k].score && IsNewest(w.book.pending, v)
                 && u.cancelled == w.cancelled + [v]
                 && multiset(u.book.pending) == multiset(w.book.pending) - multiset{v}
               else u == w
  {
    RunKeepsInv(es);
    RunSnoc(es, CancelEvent(k));
    var w := Run(es);
    if k < |w.book.added| {
      var ts, score := w.book.pending, w.book.added[k].score;
      if v :| v in ts && v.score == score {
        RemoveTakesNewest(ts, v);
      }
    }
  }

  /** Logs and records of a run only grow. */
  lemma {:induction false} RunGrows(es: seq<Event>, more: seq<Event>)
    requires Runnable(es + more)
    ensures Runnable(es)
    ensures var w, u := Run(es), Run(es + more);
            w.log <= u.log && w.cancelled <= u.cancelled && w.book.added <= u.book.added
    decreases more
  {
    if more == [] {
      assert es + more == es;
    } else {
      var all, e := es + more, more[|more| - 1];
      assert all[..|all| - 1] == es + more[..|more| - 1] && all[|all| - 1] == e;
      RunGrows(es, more[..|more| - 1]);
      StepGrows(Run(es + more[..|more| - 1]), e);
    }
  }

  lemma StepGrows(w: World, e: Event)
    requires StepOk(w, e)
    ensures var u := Step(w, e); w.log <= u.log && w.cancelled <= u.cancelled && w.book.added <= u.book.added
  {
    if e.ExpireEvent? {
      var n := ExpireAfter(w.book, e.now, e.h);
      PassesAdded(w.book, e.now, e.h, n);
    }
  }

  lemma {:induction false} PassesAdded(b: Book, now: uint32, h: Handlers, n: nat)
    ensures b.added <= Passes(b, now, h, n).book.added
  {
    if n > 0 {
      var c := Passes(b, now, h, n - 1).book;
      PassesAdded(b, now, h, n - 1);
      if HeadDue(c, now) {
        AddAllAdded(c, h(n - 1, c.pending[0].score));
      }
    }
  }

  lemma {:induction false} AddAllAdded(b: Book, rs: seq<Request>)
    ensures b.added <= b.AddAll(rs).added
    decreases rs
  {
    if rs != [] {
      AddAllAdded(b.Add(rs[0]), rs[1..]);
    }
  }

  lemma {:induction false} FitsPrefix(es: seq<Event>, more: seq<Event>)
    requires Fits(es + more)
    ensures Fits(es)
    decreases more
  {
    if more == [] {
      assert es + more == es;
    } else {
      var all := es + more;
      assert all[..|all| - 1] == es + more[..|more| - 1];
      FitsPrefix(es, more[..|more| - 1]);
    }
  }

  lemma {:induction false} TimesIn(ts: seq<Timer>, t: Timer)
    ensures 0 < Times(ts, t) <==> t in ts
  {
    if ts != [] {
      TimesIn(ts[1..], t);
    }
  }

  /**
   Every timer fires: in a fitting run a timer that has been added is, after an expiry at or after its
   score, in the log with a firing no later than that expiry, unless it has been cancelled.
   */
  lemma TimersFire(es: seq<Event>, now: uint32, h: Handlers, t: Timer)
    requires Fits(es + [ExpireEvent(now, h)])
    ensures Runnable(es) && Runnable(es + [ExpireEvent(now, h)])
    ensures var w, u := Run(es), Run(es + [ExpireEvent(now, h)]);
            t in w.book.added && t.score <= now && t !in u.cancelled ==>
              exists f <- u.log :: f.timer == t && f.now <= now
  {
    var all := es + [ExpireEvent(now, h)];
    NothingDueRemains(es, now, h);
    RunGrows(es, [ExpireEvent(now, h)]);
    EveryTimerOnce(all);
    RunKeepsInv(all);
    assert Clock(all) == now;
    var u := Run(all);
    if t in Run(es).book.added && t.score <= now && t !in u.cancelled {
      assert t in u.book.added;
      TimesIn(u.book.pending, t);
      TimesIn(u.cancelled, t);
      TimesIn(Fired(u.log), t);
      var i :| 0 <= i < |u.log| && Fired(u.log)[i] == t;
      assert u.log[i] in u.log;
    }
  }

  /**
   From the call to the firing: a timer asked for within range fires, between the time asked for and the
   first expiry from then on, unless it is cancelled before.
   */
  lemma AdditionsFire(before: seq<Event>, r: Request, between: seq<Event>, now: uint32, h: Handlers)
    requires Fits(before + [AddEvent(r)] + between + [ExpireEvent(now, h)])
    requires r.mesc + r.clock <= now
    ensures Runnable(before) && Runnable(before + [AddEvent(r)] + between + [ExpireEvent(now, h)])
    ensures var u := Run(before + [AddEvent(r)] + between + [ExpireEvent(now, h)]);
            var t := Timer(|Run(before).book.added| + 1, r.mesc + r.clock, r.handler);
            t in u.cancelled || exists f <- u.log :: f.timer == t && r.mesc + r.clock <= f.now <= now
  {
    hide Fits, Runnable, Run, Clock;
    var es := before + [AddEvent(r)] + between;
    FitsPrefix(es, [ExpireEvent(now, h)]);
    AddedStays(before, r, between);
    TimersFire(es, now, h, Timer(|Run(before).book.added| + 1, r.mesc + r.clock, r.handler));
    RunsFireInOrder(es + [ExpireEvent(now, h)]);
  }

  /** The timer asked for is on record, with the time asked for as its score. */
  lemma AddedStays(before: seq<Event>, r: Request, between: seq<Event>)
    requires Fits(before + [AddEvent(r)] + between)
    ensures Runnable(before) && Runnable(before + [AddEvent(r)] + between)
    ensures Timer(|Run(before).book.added| + 1, r.mesc + r.clock, r.handler) in
            Run(before + [AddEvent(r)] + between).book.added
  {
    hide *;
    var added := before + [AddEvent(r)];
    FitsPrefix(added, between);
    LastInRange(before, r);
    RunKeepsInv(added + between);
    PrefixRunnable(added, between);
    PrefixRunnable(before, [AddEvent(r)]);
    AddTakesEffect(before, r);
    RunGrows(added, between);
    InLonger(Run(added).book.added, Run(added + between).book.added, |Run(before).book.added|);
  }

  lemma LastInRange(before: seq<Event>, r: Request)
    requires Fits(before + [AddEvent(r)])
    ensures Stored(r.Key()) == r.mesc + r.clock
  {
    assert (before + [AddEvent(r)])[..|before|] == before;
    DueTimeIff(r);
  }

  lemma InLonger<T>(s: seq<T>, u: seq<T>, i: nat)
    requires s <= u && i < |s|
    ensures s[i] in u
  {
    assert u[i] == s[i];
  }

  // ---- which runs fit

  predicate Reads(e: Event) {
    e.AddEvent? || e.ExpireEvent?
  }

  function Reading(e: Event): nat
    requires Reads(e)
  {
    if e.AddEvent? then e.r.clock else e.now
  }

  ghost predicate EventFits(e: Event) {
    (e.AddEvent? ==> InRange(e.r)) && (e.ExpireEvent? ==> LooksAhead(e.now, e.h))
  }

  /** Of any two events that read the clock the later one reads no less. */
  ghost predicate ClockForward(es: seq<Event>) {
    forall i, j :: 0 <= i < j < |es| && Reads(es[i]) && Reads(es[j]) ==> Reading(es[i]) <= Reading(es[j])
  }

  /** The clock of a run is a reading, the last and so the greatest, or 0 if there is none. */
  lemma {:induction false} ClockIsLast(es: seq<Event>)
    requires ClockForward(es)
    ensures forall i :: 0 <= i < |es| && Reads(es[i]) ==> Reading(es[i]) <= Clock(es)
    ensures Clock(es) == 0 || exists i :: 0 <= i < |es| && Reads(es[i]) && Reading(es[i]) == Clock(es)
  {
    if es != [] {
      var before, e := es[..|es| - 1], es[|es| - 1];
      if !Reads(e) {
        ClockIsLast(before);
        if Clock(before) != 0 {
          var i :| 0 <= i < |before| && Reads(before[i]) && Reading(before[i]) == Clock(before);
          assert es[i] == before[i];
        }
        forall i | 0 <= i < |es| && Reads(es[i])
          ensures Reading(es[i]) <= Clock(es)
        {
          assert es[i] == before[i];
        }
      }
    }
  }

  /** Fitting in plain terms: additions are in range, handlers look ahead, and the clock runs forward. */
  lemma {:induction false} FitsIff(es: seq<Event>)
    ensures Fits(es) <==>
            && (forall i :: 0 <= i < |es| ==> EventFits(es[i]))
            && forall i, j :: 0 <= i < j < |es| && Reads(es[i]) && Reads(es[j]) ==> Reading(es[i]) <= Reading(es[j])
  {
    if es != [] {
      var before, e := es[..|es| - 1], es[|es| - 1];
      FitsIff(before);
      assert Fits(es) ==> Fits(before);
      assert forall i :: 0 <= i < |before| ==> before[i] == es[i];
      if Fits(before) {
        ClockIsLast(before);
        ClockStep(es);
      }
    }
  }

  lemma ClockStep(es: seq<Event>)
    requires es != [] && ClockForward(es[..|es| - 1])
    ensures var before, e := es[..|es| - 1], es[|es| - 1];
            ClockForward(es) <==> (Reads(e) ==> Clock(before) <= Reading(e))
  {
    var before, e := es[..|es| - 1], es[|es| - 1];
    ClockIsLast(before);
    if Reads(e) && Clock(before) <= Reading(e) {
      forall i, j | 0 <= i < j < |es| && Reads(es[i]) && Reads(es[j])
        ensures Reading(es[i]) <= Reading(es[j])
      {
        assert es[i] == before[i];
        assert j < |before| ==> es[j] == before[j];
      }
    } else if !Reads(e) {
      forall i, j | 0 <= i < j < |es| && Reads(es[i]) && Reads(es[j])
        ensures Reading(es[i]) <= Reading(es[j])
      {
        assert es[i] == before[i] && es[j] == before[j];
      }
    } else {
      var i :| 0 <= i < |before| && Reads(before[i]) && Reading(before[i]) == Clock(before);
      assert es[i] == before[i] && es[|before|] == e;
    }
  }
}
