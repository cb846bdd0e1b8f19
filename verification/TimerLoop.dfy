/**
 The expiry loop and the driver on the skip list itself, proved to compute what TimerRuns says.
 Handlers are represented by the requests they make: they run while the node being fired is still
 in the list, and they may only add timers.
 */
module TimerLoop {
  import opened TimerSpec
  import opened TimerExpiry
  import opened TimerRuns
  import opened SkipListNodes
  import opened Chains
  import opened Search
  import opened SkipLists

  ghost function AsTimers(nodes: seq<SkipListNode>): (ts: seq<Timer>)
    ensures |ts| == |nodes|
    ensures forall i :: 0 <= i < |ts| ==> ts[i] == nodes[i].AsTimer()
  {
    seq(|nodes|, i requires 0 <= i < |nodes| => nodes[i].AsTimer())
  }

  /** Each tower is as tall as the draws of its request say. */
  ghost predicate Drawn(nodes: seq<SkipListNode>, asked: seq<Request>) {
    |nodes| == |asked| && forall i :: 0 <= i < |nodes| ==> Height(nodes[i]) == LevelOf(asked[i].draws)
  }

  ghost predicate Among(chain: Chain, nodes: seq<SkipListNode>) {
    forall p {:trigger chain[p]} :: 1 <= p < |chain| ==> chain[p] in nodes
  }

  /** The list holds exactly the pending timers of `b`; `nodes` are the nodes ever added to it. */
  ghost predicate Holds(zsl: SkipList, b: Book, nodes: seq<SkipListNode>)
    reads zsl, Cells(zsl.chain)
  {
    && zsl.Valid() && b.Sound() && b.pending == zsl.View() && b.Next() == zsl.next
    && AsTimers(nodes) == b.added && Drawn(nodes, b.asked) && Among(zsl.chain, nodes)
  }

  /** The level drawn for a timer by the request it was added for. */
  function DrawnLevel(b: Book, t: Timer): nat {
    if 1 <= t.stamp <= |b.asked| then LevelOf(b.asked[t.stamp - 1].draws) else 0
  }

  /** `m` is the larger of 1 and the greatest level drawn for a pending timer. */
  ghost predicate DrawnTop(b: Book, m: nat) {
    && 1 <= m && (forall t <- b.pending :: 1 <= DrawnLevel(b, t) <= m)
    && (m == 1 || exists t <- b.pending :: DrawnLevel(b, t) == m)
  }

  /** The node of a pending timer is the one added for it. */
  lemma PendingNode(zsl: SkipList, b: Book, nodes: seq<SkipListNode>, i: nat)
    requires Holds(zsl, b, nodes) && i < |b.pending|
    ensures |zsl.chain| == |b.pending| + 1
    ensures 1 <= DrawnLevel(b, b.pending[i]) == Height(zsl.chain[i + 1])
  {
    var x := zsl.chain[i + 1];
    assert b.pending[i] == x.AsTimer() && x.IsTower();
    var k :| 0 <= k < |nodes| && nodes[k] == x;
    assert b.added[k] == AsTimers(nodes)[k] == x.AsTimer();
  }

  lemma LevelIsTop(zsl: SkipList, b: Book, nodes: seq<SkipListNode>)
    requires Holds(zsl, b, nodes)
    ensures IsTop(zsl.chain, zsl.m_level) && |zsl.chain| == |b.pending| + 1
  {
    ChainTop(zsl.chain);
  }

  /** The level of the list is the one the draws of the pending timers call for. */
  lemma LevelDrawn(zsl: SkipList, b: Book, nodes: seq<SkipListNode>)
    requires Holds(zsl, b, nodes)
    ensures DrawnTop(b, zsl.m_level)
  {
    hide DrawnLevel, Drawn, Among, AsTimers;
    var m := zsl.m_level;
    LevelIsTop(zsl, b, nodes);
    hide Holds;
    forall t <- b.pending
      ensures 1 <= DrawnLevel(b, t) <= m
    {
      var i :| 0 <= i < |b.pending| && b.pending[i] == t;
      PendingNode(zsl, b, nodes, i);
    }
    if m != 1 {
      var p :| 1 <= p < |zsl.chain| && Height(zsl.chain[p]) == m;
      PendingNode(zsl, b, nodes, p - 1);
      assert b.pending[p - 1] in b.pending;
    }
  }

  lemma AsTimersConcat(nodes: seq<SkipListNode>, more: seq<SkipListNode>)
    ensures AsTimers(nodes + more) == AsTimers(nodes) + AsTimers(more)
  {
  }

  lemma AsTimersOne(x: SkipListNode)
    ensures AsTimers([x]) == [x.AsTimer()]
  {
  }

  lemma AmongSplice(s: Chain, chain: Chain, c: nat, x: SkipListNode, nodes: seq<SkipListNode>)
    requires 1 <= c && IsSplice(s, chain, c, x)
    ensures Among(chain, nodes) ==> Among(s, nodes + [x])
    ensures Among(s, nodes) ==> Among(chain, nodes)
  {
    if Among(chain, nodes) {
      forall q | 1 <= q < |s|
        ensures s[q] in nodes + [x]
      {
        assert q != c ==> s[q] == chain[if q < c then q else q - 1];
      }
    }
    if Among(s, nodes) {
      forall p | 1 <= p < |chain|
        ensures chain[p] in nodes
      {
        assert chain[p] == s[if p < c then p else p + 1];
      }
    }
  }

  lemma DrawnOne(nodes: seq<SkipListNode>, asked: seq<Request>, x: SkipListNode, r: Request)
    requires Drawn(nodes, asked) && Height(x) == LevelOf(r.draws)
    ensures Drawn(nodes + [x], asked + [r])
  {
  }

  /** Adds one timer: the tower of its node is drawn with the request's own draws. */
  method AddRequest(zsl: SkipList, r: Request, ghost b: Book, ghost nodes: seq<SkipListNode>) returns (x: SkipListNode)
    requires Holds(zsl, b, nodes) && r.Key() < U31
    modifies zsl, Cells(zsl.chain)
    ensures Holds(zsl, b.Add(r), nodes + [x]) && fresh(Cells(zsl.chain) - old(Cells(zsl.chain)))
    ensures Height(x) == LevelOf(r.draws)
  {
    hide LevelOf;
    ghost var was := zsl.chain;
    AddSound(b, r);
    RankSplits(b.pending, r.Key());
    x := zsl.AddTimer(r.mesc, r.clock, r.handler, r.draws);
    AsTimersConcat(nodes, [x]);
    AsTimersOne(x);
    DrawnOne(nodes, b.asked, x, r);
    AmongSplice(zsl.chain, was, Landing(was, r.Key()), x, nodes);
  }

  lemma AddAllSnoc(b: Book, rs: seq<Request>, i: nat)
    requires i < |rs|
    ensures b.AddAll(rs[..i + 1]) == b.AddAll(rs[..i]).Add(rs[i])
  {
    assert rs[..i + 1] == rs[..i] + [rs[i]];
    AddAllConcat(b, rs[..i], [rs[i]]);
    assert [rs[i]][1..] == [];
  }

  lemma AddAllNone(b: Book)
    ensures b.AddAll([]) == b
  {
  }

  /** Runs a handler: adds a timer for each of its requests. */
  method RunHandler(zsl: SkipList, rs: seq<Request>, ghost b: Book, ghost nodes: seq<SkipListNode>)
    returns (armed: seq<SkipListNode>)
    requires Holds(zsl, b, nodes) && KeysFit(rs)
    modifies zsl, Cells(zsl.chain)
    ensures Holds(zsl, b.AddAll(rs), nodes + armed) && fresh(Cells(zsl.chain) - old(Cells(zsl.chain)))
  {
    hide Holds, Book.AddAll, Book.Add;
    armed := [];
    AddAllNone(b);
    assert nodes + [] == nodes;
    for i := 0 to |rs|
      invariant Holds(zsl, b.AddAll(rs[..i]), nodes + armed) && fresh(Cells(zsl.chain) - old(Cells(zsl.chain)))
    {
      AddAllSnoc(b, rs, i);
      var x := AddRequest(zsl, rs[i], b.AddAll(rs[..i]), nodes + armed);
      assert nodes + armed + [x] == nodes + (armed + [x]);
      armed := armed + [x];
    }
    assert rs[..|rs|] == rs;
  }

  /** Deletes the head of the list. */
  method DropHead(zsl: SkipList, ghost b: Book, ghost nodes: seq<SkipListNode>)
    requires Holds(zsl, b, nodes) && b.pending != []
    modifies zsl, Cells(zsl.chain)
    ensures Holds(zsl, b.(pending := Remove(b.pending, b.pending[0].score)), nodes)
    ensures fresh(Cells(zsl.chain) - old(Cells(zsl.chain)))
  {
    ghost var was := zsl.chain;
    RemoveHead(b.pending);
    RankSplits(b.pending, b.pending[0].score);
    DropSound(b, 1);
    zsl.DelHeadNode();
    AmongSplice(was, zsl.chain, 1, was[1], nodes);
  }

  /** One pass over the due head: run its handler, then delete the head. */
  method FireHead(zsl: SkipList, rs: seq<Request>, ghost b: Book, ghost nodes: seq<SkipListNode>)
    returns (armed: seq<SkipListNode>)
    requires Holds(zsl, b, nodes) && b.pending != [] && KeysFit(rs)
    modifies zsl, Cells(zsl.chain)
    ensures Holds(zsl, Pass(b, rs), nodes + armed) && fresh(Cells(zsl.chain) - old(Cells(zsl.chain)))
  {
    hide Holds;
    armed := RunHandler(zsl, rs, b, nodes);
    DropHead(zsl, b.AddAll(rs), nodes + armed);
  }

  /** The head of the list is the first pending timer. */
  method PeekHead(zsl: SkipList, ghost b: Book, ghost nodes: seq<SkipListNode>) returns (x: SkipListNode?)
    requires Holds(zsl, b, nodes)
    ensures x == null <==> b.pending == []
    ensures x != null ==> x.AsTimer() == b.pending[0]
  {
    x := zsl.GetMinNode();
  }

  /** Fires and removes due heads until the list is empty or its head is not due. */
  method ExpireTimer(zsl: SkipList, now: uint32, h: Handlers, ghost b: Book, ghost nodes: seq<SkipListNode>)
    returns (fired: seq<SkipListNode>, armed: seq<SkipListNode>, ghost last: Book)
    requires Holds(zsl, b, nodes) && HandlersFit(now, h) && Halts(b, now, h)
    modifies zsl, Cells(zsl.chain)
    ensures Holds(zsl, last, nodes + armed) && fresh(Cells(zsl.chain) - old(Cells(zsl.chain)))
    ensures Expiry(last, AsTimers(fired)) == Expire(b, now, h)
  {
    hide Holds, Expire, Passes, Pass;
    var j := 0;
    fired, armed, last := [], [], b;
    ghost var n := ExpireAfter(b, now, h);
    PassesNone(b, now, h);
    assert nodes + [] == nodes;
    while true
      invariant Holds(zsl, last, nodes + armed) && fresh(Cells(zsl.chain) - old(Cells(zsl.chain)))
      invariant Expiry(last, AsTimers(fired)) == Passes(b, now, h, j) && j <= n
      decreases n - j
    {
      var x := PeekHead(zsl, last, nodes + armed);
      if x == null {
        ExpireIs(b, now, h, j);
        break;
      }
      if x.GetScore() > now {
        ExpireIs(b, now, h, j);
        break;
      }
      PassesNext(b, now, h, j);
      var more := FireHead(zsl, h(j, x.GetScore()), last, nodes + armed);
      AsTimersConcat(fired, [x]);
      AsTimersOne(x);
      assert nodes + armed + more == nodes + (armed + more);
      last := Pass(last, h(j, x.GetScore()));
      fired, armed, j := fired + [x], armed + more, j + 1;
    }
  }

  /** Events whose timers the list can order. */
  ghost predicate InKeys(e: Event) {
    match e
    case AddEvent(r) => r.Key() < U31
    case CancelEvent(_) => true
    case ExpireEvent(now, h) => HandlersFit(now, h)
  }

  lemma RemoveSound(b: Book, score: nat)
    requires b.Sound()
    ensures b.(pending := Remove(b.pending, score)).Sound()
  {
    RemoveKeepsOrder(b.pending, score);
  }

  method Cancel(zsl: SkipList, x: SkipListNode, ghost b: Book, ghost nodes: seq<SkipListNode>)
    requires Holds(zsl, b, nodes)
    modifies zsl, Cells(zsl.chain)
    ensures Holds(zsl, b.(pending := Remove(b.pending, x.m_score)), nodes)
    ensures fresh(Cells(zsl.chain) - old(Cells(zsl.chain)))
  {
    ghost var was := zsl.chain;
    RemoveSound(b, x.m_score);
    RankSplits(b.pending, x.m_score);
    zsl.DelTimer(x);
    if zsl.chain != was {
      AmongSplice(was, zsl.chain, Landing(was, x.m_score), was[Landing(was, x.m_score)], nodes);
    }
  }

  /** One event of a run; the outputs extend the records of the driver. */
  method RunEvent(zsl: SkipList, e: Event, nodes: seq<SkipListNode>, ghost w: World)
    returns (more: seq<SkipListNode>, fired: seq<SkipListNode>)
    requires Holds(zsl, w.book, nodes) && InKeys(e) && StepOk(w, e)
    modifies zsl, Cells(zsl.chain)
    ensures Holds(zsl, Step(w, e).book, nodes + more) && fresh(Cells(zsl.chain) - old(Cells(zsl.chain)))
    ensures Step(w, e).log == w.log + Stamped(AsTimers(fired), if e.ExpireEvent? then e.now else 0)
  {
    more, fired := [], [];
    assert nodes + [] == nodes;
    NodeScores(zsl, w.book, nodes);
    hide Holds, Halts, Expire;
    match e
    case AddEvent(r) =>
      var x := AddRequest(zsl, r, w.book, nodes);
      more := [x];
    case CancelEvent(k) =>
      if k < |nodes| {
        Cancel(zsl, nodes[k], w.book, nodes);
      }
    case ExpireEvent(now, h) =>
      ghost var last;
      fired, more, last := ExpireTimer(zsl, now, h, w.book, nodes);
  }

  lemma NodeScores(zsl: SkipList, b: Book, nodes: seq<SkipListNode>)
    requires Holds(zsl, b, nodes)
    ensures |nodes| == |b.added| && forall k :: 0 <= k < |nodes| ==> nodes[k].m_score == b.added[k].score
  {
    assert forall k :: 0 <= k < |nodes| ==> b.added[k] == AsTimers(nodes)[k];
  }

  method EmptyList() returns (zsl: SkipList)
    ensures fresh(zsl) && fresh(Cells(zsl.chain)) && Holds(zsl, Book([], [], []), [])
  {
    zsl := new SkipList(0);
  }

  /**
   Runs a sequence of events on a fresh list; `nodes` are the nodes added and `log` records what fired,
   both in order.
   */
  method Drive(es: seq<Event>) returns (zsl: SkipList, nodes: seq<SkipListNode>, log: seq<SkipListNode>)
    requires Runnable(es) && forall e <- es :: InKeys(e)
    ensures Holds(zsl, Run(es).book, nodes)
    ensures AsTimers(nodes) == Run(es).book.added
    ensures AsTimers(log) == Fired(Run(es).log)
    ensures |nodes| == |Run(es).book.asked|
    ensures forall i :: 0 <= i < |nodes| ==> Height(nodes[i]) == LevelOf(Run(es).book.asked[i].draws)
    ensures DrawnTop(Run(es).book, zsl.m_level)
  {
    zsl, nodes, log := DriveThrough(es);
    LevelDrawn(zsl, Run(es).book, nodes);
  }

  method DriveThrough(es: seq<Event>) returns (zsl: SkipList, nodes: seq<SkipListNode>, log: seq<SkipListNode>)
    requires Runnable(es) && forall e <- es :: InKeys(e)
    ensures Holds(zsl, Run(es).book, nodes)
    ensures AsTimers(log) == Fired(Run(es).log)
  {
    hide Holds, Step;
    zsl := EmptyList();
    nodes, log := [], [];
    for i := 0 to |es|
      invariant fresh(zsl) && fresh(Cells(zsl.chain)) && Runnable(es[..i])
      invariant Holds(zsl, Run(es[..i]).book, nodes)
      invariant AsTimers(log) == Fired(Run(es[..i]).log)
    {
      ghost var w := Run(es[..i]);
      PrefixRuns(es, i + 1);
      assert es[..i + 1][..i] == es[..i];
      var more, fired := RunEvent(zsl, es[i], nodes, w);
      FiredAppend(w.log, AsTimers(fired), if es[i].ExpireEvent? then es[i].now else 0);
      AsTimersConcat(log, fired);
      nodes, log := nodes + more, log + fired;
    }
    assert es[..|es|] == es;
  }

  lemma {:induction false} PrefixRuns(es: seq<Event>, i: nat)
    requires Runnable(es) && i <= |es|
    ensures Runnable(es[..i])
    decreases |es|
  {
    if i < |es| {
      var before := es[..|es| - 1];
      PrefixRuns(before, i);
      assert before[..i] == es[..i];
    } else {
      assert es[..i] == es;
    }
  }

  /** The driver can run every fitting run, so the theorems about runs speak about the skip list. */
  lemma {:induction false} FittingRunsRun(es: seq<Event>)
    requires Fits(es)
    ensures Runnable(es) && forall e <- es :: InKeys(e)
  {
    hide Run;
    RunKeepsInv(es);
    if es != [] {
      var before, e := es[..|es| - 1], es[|es| - 1];
      FittingRunsRun(before);
      assert InKeys(e);
      assert es == before + [e];
    }
  }
}
