/**
 The skip list: search from the top level down, splice a node into or out of every level of its
 tower, keep the level count and the length.  Each method is proved against the linear-scan
 functions of TimerSpec.
 */
module SkipLists {
  import opened TimerSpec
  import opened SkipListNodes
  import opened Chains
  import opened Search

  /** The coin of the level draw: the low 16 bits against a quarter of their range. */
  predicate Heads(draw: nat) {
    (draw % 0x1_0000) as real < 0.25 * 65535.0
  }

  function LeadingHeads(draws: seq<nat>): nat {
    if draws == [] || !Heads(draws[0]) then 0 else 1 + LeadingHeads(draws[1..])
  }

  function LevelOf(draws: seq<nat>): nat {
    var level := 1 + LeadingHeads(draws);
    if level < SKIPLIST_MAXLEVEL then level else SKIPLIST_MAXLEVEL
  }

  /** Flips until tails; the level is capped.  `draws` are the values of the random source. */
  method RandomLevel(draws: seq<nat>) returns (level: nat)
    ensures level == LevelOf(draws)
  {
    level := 1;
    var k := 0;
    while k < |draws| && Heads(draws[k])
      invariant k <= |draws| && level == 1 + k
      invariant LeadingHeads(draws) == k + LeadingHeads(draws[k..])
    {
      assert draws[k..][1..] == draws[k + 1..];
      level, k := level + 1, k + 1;
    }
    level := if level < SKIPLIST_MAXLEVEL then level else SKIPLIST_MAXLEVEL;
  }

  /** A draw is heads for the lower quarter of the low words. */
  lemma HeadsIff(draw: nat)
    ensures Heads(draw) <==> draw % 65536 <= 16383
  {
  }

  function HeadWords(n: nat): set<nat> {
    set w: nat | w < n && Heads(w)
  }

  lemma {:induction false} HeadWordsBelow(n: nat)
    requires n <= 65536
    ensures |HeadWords(n)| == if n <= 16384 then n else 16384
  {
    if n == 0 {
      assert HeadWords(0) == {};
    } else {
      HeadWordsBelow(n - 1);
      HeadsIff(n - 1);
      if n <= 16384 {
        assert HeadWords(n) == HeadWords(n - 1) + {n - 1};
      } else {
        assert HeadWords(n) == HeadWords(n - 1);
      }
    }
  }

  /** Of the 65536 low words exactly 16384 are heads: one in four. */
  lemma HeadsQuarter()
    ensures |set w: nat | w < 65536 && Heads(w)| * 4 == 65536
  {
    HeadWordsBelow(65536);
    assert HeadWords(65536) == set w: nat | w < 65536 && Heads(w);
  }

  lemma {:induction false} LeadingHeadsIs(draws: seq<nat>)
    ensures var n := LeadingHeads(draws);
            && n <= |draws|
            && (forall i :: 0 <= i < n ==> draws[i] % 65536 <= 16383)
            && (n < |draws| ==> draws[n] % 65536 > 16383)
  {
    if draws != [] {
      LeadingHeadsIs(draws[1..]);
      HeadsIff(draws[0]);
      if Heads(draws[0]) {
        var n := LeadingHeads(draws[1..]);
        forall i | 0 <= i < n + 1
          ensures draws[i] % 65536 <= 16383
        {
          assert i > 0 ==> draws[i] == draws[1..][i - 1];
        }
        assert n < |draws[1..]| ==> draws[n + 1] == draws[1..][n];
      }
    }
  }

  /** The level in terms of the draws, one by one. */
  lemma LevelOfIff(draws: seq<nat>, level: nat)
    requires 1 <= level <= 32
    ensures LevelOf(draws) == level <==>
            && level - 1 <= |draws|
            && (forall i :: 0 <= i < level - 1 ==> draws[i] % 65536 <= 16383)
            && (level < 32 && level - 1 < |draws| ==> draws[level - 1] % 65536 > 16383)
  {
    LeadingHeadsIs(draws);
    var n := LeadingHeads(draws);
    assert n < level - 1 && n < |draws| ==> draws[n] % 65536 > 16383;
    assert level - 1 < n ==> draws[level - 1] % 65536 <= 16383;
  }

  /** The draw can produce any level from 1 to the maximum, and no other. */
  lemma LevelsPossible(level: nat)
    ensures (exists draws: seq<nat> :: LevelOf(draws) == level) <==> 1 <= level <= SKIPLIST_MAXLEVEL
  {
    if 1 <= level <= SKIPLIST_MAXLEVEL {
      var draws := seq(level - 1, _ => 0);
      AllHeads(draws);
      assert LevelOf(draws) == level;
    }
  }

  lemma {:induction false} AllHeads(draws: seq<nat>)
    requires forall i :: 0 <= i < |draws| ==> draws[i] == 0
    ensures LeadingHeads(draws) == |draws|
  {
    if draws != [] {
      AllHeads(draws[1..]);
    }
  }

  /** Splicing in a node too short for a level changes no link there. */
  lemma SpliceShort(s: Chain, chain: Chain, c: nat, x: SkipListNode, i: nat, p: nat)
    requires IsSplice(s, chain, c, x) && p < |chain| && Height(x) <= i
    ensures NextAt(s, (if p < c then p else p + 1) + 1, i) == NextAt(chain, p + 1, i)
  {
    if p < c {
      SpliceNextBefore(s, chain, c, x, p + 1, i);
    } else {
      SpliceNextAfter(s, chain, c, x, p + 1, i);
    }
  }

  /** Splicing in a node that reaches the level changes the link of its predecessor only. */
  lemma SpliceTall(s: Chain, chain: Chain, c: nat, x: SkipListNode, i: nat, p: nat)
    requires IsChain(chain) && IsSplice(s, chain, c, x)
    requires 1 <= c && i < SKIPLIST_MAXLEVEL && i < Height(x)
    requires p < |chain| && i < Height(chain[p])
    ensures NextAt(s, (if p < c then p else p + 1) + 1, i) ==
            if p == PredPos(chain, c, i) then x else NextAt(chain, p + 1, i)
    ensures p == PredPos(chain, c, i) ==> NextAt(s, c + 1, i) == NextAt(chain, p + 1, i)
  {
    PredPosNext(chain, c, i, p);
    if p < c {
      SpliceNextBefore(s, chain, c, x, p + 1, i);
      SpliceNextAfter(s, chain, c, x, c, i);
    } else {
      SpliceNextAfter(s, chain, c, x, p + 1, i);
    }
  }

  lemma NewCellApart(s: Chain, chain: Chain, c: nat, x: SkipListNode, i: nat, p: nat)
    requires IsSplice(s, chain, c, x) && IsChain(s) && p < |chain|
    requires i < Height(x) && i < Height(chain[p])
    ensures chain[p].m_level[i] != x.m_level[i]
  {
    CellsApart(s, if p < c then p else p + 1, c, i);
  }

  /** A node of the chain too short for the level is nobody's successor there. */
  lemma NextNotShort(s: Chain, p: nat, c: nat, i: nat)
    requires IsChain(s) && p <= |s| && c < |s| && Height(s[c]) <= i
    ensures NextAt(s, p, i) != s[c]
  {
  }

  /** Splices `x` into one level behind its predecessor. */
  method LinkIn(ghost s: Chain, ghost chain: Chain, ghost c: nat, pred: SkipListNode, x: SkipListNode, i: nat)
    requires IsChain(chain) && IsChain(s) && IsSplice(s, chain, c, x) && 1 <= c
    requires i < SKIPLIST_MAXLEVEL && i < |x.m_level|
    requires pred == PredAt(chain, c, i)
    requires Linked(chain, i)
    modifies pred.m_level[i], x.m_level[i]
    ensures Linked(s, i)
  {
    ghost var m := PredPos(chain, c, i);
    NewCellApart(s, chain, c, x, i, m);
    assert LinkOk(chain, m, i);
    x.SetNextNodeOfLevel(i, pred.GetNextNodeOfLevel(i));
    pred.SetNextNodeOfLevel(i, x);
    forall q: nat | q < |s| && i < Height(s[q])
      ensures LinkOk(s, q, i)
    {
      if q == c {
        SpliceTall(s, chain, c, x, i, m);
      } else {
        var p := if q < c then q else q - 1;
        SpliceTall(s, chain, c, x, i, p);
        NewCellApart(s, chain, c, x, i, p);
        if p != m {
          CellsApart(chain, p, m, i);
          assert old(LinkOk(chain, p, i));
        }
      }
    }
  }

  /** Takes `x` out of one level if it is linked there. */
  method LinkOut(ghost s: Chain, ghost chain: Chain, ghost c: nat, pred: SkipListNode, x: SkipListNode, i: nat)
    requires IsChain(chain) && IsChain(s) && IsSplice(s, chain, c, x) && 1 <= c
    requires i < SKIPLIST_MAXLEVEL
    requires pred == PredAt(chain, c, i)
    requires Linked(s, i)
    modifies pred.m_level[i]
    ensures Linked(chain, i)
  {
    ghost var m := PredPos(chain, c, i);
    assert s[m] == pred && LinkOk(s, m, i);
    if i < |x.m_level| {
      SpliceTall(s, chain, c, x, i, m);
      assert LinkOk(s, c, i);
    } else {
      SpliceShort(s, chain, c, x, i, m);
      NextNotShort(s, m + 1, c, i);
    }
    if pred.GetNextNodeOfLevel(i) == x {
      pred.SetNextNodeOfLevel(i, x.GetNextNodeOfLevel(i));
    }
    forall p: nat | p < |chain| && i < Height(chain[p])
      ensures LinkOk(chain, p, i)
    {
      ghost var q := if p < c then p else p + 1;
      assert s[q] == chain[p];
      assert old(LinkOk(s, q, i));
      if i < Height(x) {
        SpliceTall(s, chain, c, x, i, p);
      } else {
        SpliceShort(s, chain, c, x, i, p);
      }
      if p != m {
        CellsApart(chain, p, m, i);
      }
    }
  }

  /** A level that `x` is too short for stays linked when `x` comes... */
  lemma LinkedShortIn(s: Chain, chain: Chain, c: nat, x: SkipListNode, i: nat)
    requires IsSplice(s, chain, c, x) && Height(x) <= i && Linked(chain, i)
    ensures Linked(s, i)
  {
    forall q: nat | q < |s| && i < Height(s[q])
      ensures LinkOk(s, q, i)
    {
      var p := if q < c then q else q - 1;
      SpliceShort(s, chain, c, x, i, p);
      assert LinkOk(chain, p, i);
    }
  }

  /** ... and when it goes. */
  lemma LinkedShortOut(s: Chain, chain: Chain, c: nat, x: SkipListNode, i: nat)
    requires IsSplice(s, chain, c, x) && Height(x) <= i && Linked(s, i)
    ensures Linked(chain, i)
  {
    forall p: nat | p < |chain| && i < Height(chain[p])
      ensures LinkOk(chain, p, i)
    {
      var q := if p < c then p else p + 1;
      assert s[q] == chain[p];
      SpliceShort(s, chain, c, x, i, p);
      assert LinkOk(s, q, i);
    }
  }

  /** One round of the splicing loop of insertion; the other levels keep their links. */
  method LinkInLevel(ghost s: Chain, ghost chain: Chain, ghost c: nat, pred: SkipListNode, x: SkipListNode, i: nat)
    requires IsChain(chain) && IsChain(s) && IsSplice(s, chain, c, x) && 1 <= c
    requires i < SKIPLIST_MAXLEVEL && i < |x.m_level|
    requires pred == PredAt(chain, c, i)
    requires Linked(chain, i)
    modifies pred.m_level[i], x.m_level[i]
    ensures Linked(s, i)
    ensures forall j: nat {:trigger Linked(s, j)} :: j != i && old(Linked(s, j)) ==> Linked(s, j)
    ensures forall j: nat {:trigger Linked(chain, j)} :: j != i && old(Linked(chain, j)) ==> Linked(chain, j)
  {
    CellsOf(s, chain, c, x, i);
    LinkIn(s, chain, c, pred, x, i);
    LinksKept(s);
    LinksKept(chain);
  }

  /** Splices `x` into every level of its tower. */
  method WeaveIn(ghost s: Chain, ghost chain: Chain, ghost c: nat, temp: array<SkipListNode?>, x: SkipListNode)
    requires IsChain(chain) && IsChain(s) && IsSplice(s, chain, c, x) && 1 <= c
    requires Precede(temp, chain, c, Height(x))
    requires AllLinked(chain)
    modifies Cells(s)
    ensures AllLinked(s)
  {
    for i := 0 to |x.m_level|
      invariant forall j: nat {:trigger Linked(s, j)} :: j < i ==> Linked(s, j)
      invariant forall j: nat {:trigger Linked(chain, j)} :: i <= j < SKIPLIST_MAXLEVEL ==> Linked(chain, j)
    {
      var pred := temp[i];
      CellsOf(s, chain, c, x, i);
      LinkInLevel(s, chain, c, pred, x, i);
    }
    forall i: nat | i < SKIPLIST_MAXLEVEL
      ensures Linked(s, i)
    {
      if Height(x) <= i {
        LinkedShortIn(s, chain, c, x, i);
      }
    }
  }

  lemma CellsOf(s: Chain, chain: Chain, c: nat, x: SkipListNode, i: nat)
    requires IsChain(chain) && IsChain(s) && IsSplice(s, chain, c, x) && 1 <= c && i < SKIPLIST_MAXLEVEL
    ensures i < Height(PredAt(chain, c, i)) && PredAt(chain, c, i).m_level[i] in Cells(s)
    ensures PredAt(chain, c, i).m_level[i].index == i
    ensures i < Height(x) ==> x.m_level[i] in Cells(s) && x.m_level[i].index == i
  {
    var m := PredPos(chain, c, i);
    assert s[m] == chain[m] && s[c] == x;
    assert s[m].IsTower() && s[c].IsTower();
  }

  /** One round of the unlinking loop of removal; the other levels keep their links. */
  method LinkOutLevel(ghost s: Chain, ghost chain: Chain, ghost c: nat, pred: SkipListNode, x: SkipListNode, i: nat)
    requires IsChain(chain) && IsChain(s) && IsSplice(s, chain, c, x) && 1 <= c
    requires i < SKIPLIST_MAXLEVEL
    requires pred == PredAt(chain, c, i)
    requires Linked(s, i)
    modifies pred.m_level[i]
    ensures Linked(chain, i)
    ensures forall j: nat {:trigger Linked(s, j)} :: j != i && old(Linked(s, j)) ==> Linked(s, j)
    ensures forall j: nat {:trigger Linked(chain, j)} :: j != i && old(Linked(chain, j)) ==> Linked(chain, j)
  {
    CellsOf(s, chain, c, x, i);
    LinkOut(s, chain, c, pred, x, i);
    LinksKept(s);
    LinksKept(chain);
  }

  /** Takes `x` out of every level below `top`, which no tower exceeds. */
  method WeaveOut(ghost s: Chain, ghost chain: Chain, ghost c: nat, temp: array<SkipListNode?>, x: SkipListNode,
                  top: nat)
    requires IsChain(chain) && IsChain(s) && IsSplice(s, chain, c, x) && 1 <= c
    requires Precede(temp, chain, c, top) && Height(x) <= top
    requires AllLinked(s)
    modifies Cells(chain)
    ensures AllLinked(chain)
  {
    for i := 0 to top
      invariant forall j: nat {:trigger Linked(chain, j)} :: j < i ==> Linked(chain, j)
      invariant forall j: nat {:trigger Linked(s, j)} :: i <= j < SKIPLIST_MAXLEVEL ==> Linked(s, j)
    {
      var pred := temp[i];
      CellsOf(s, chain, c, x, i);
      assert pred.m_level[i] in Cells(chain);
      LinkOutLevel(s, chain, c, pred, x, i);
    }
    forall i: nat | i < SKIPLIST_MAXLEVEL
      ensures Linked(chain, i)
    {
      if top <= i {
        LinkedShortOut(s, chain, c, x, i);
      }
    }
  }

  class SkipList {
    const m_header: SkipListNode
    var m_length: nat
    var m_level: nat
    ghost var chain: Chain
    ghost var next: nat

    ghost predicate Valid()
      reads this, Cells(chain)
    {
      Counted() && m_level == TopLevel(chain) && AllLinked(chain)
    }

    ghost predicate Counted()
      reads this
    {
      && IsChain(chain) && chain[0] == m_header
      && 0 < next && chain[0].stamp == 0 && StampsFit(chain, next)
      && m_length == |chain| - 1
    }

    ghost function View(): seq<Timer>
      reads this
      requires 1 <= |chain|
    {
      Timers(chain)
    }

    constructor (handler: nat)
      ensures Valid() && View() == [] && next == 1
      ensures fresh(m_header) && fresh(Cells(chain))
    {
      m_level, m_length := 1, 0;
      m_header := new SkipListNode(0, SKIPLIST_MAXLEVEL, handler, 0);
      next := 1;
      new;
      chain := [m_header];
      assert TopLevel(chain) == 1;
      forall i: nat | i < SKIPLIST_MAXLEVEL
        ensures Linked(chain, i)
      {
        assert LinkOk(chain, 0, i);
      }
    }

    /**
     The search both insertion and removal start with.  On every level it finds the last node before
     the position where it lands.  It follows one link for each node it passes on each level, never
     more in all than it passes positions of level 0.
     */
    method FindPredecessors(key: nat) returns (temp: array<SkipListNode?>, x: SkipListNode, ghost moves: nat)
      requires Valid()
      ensures Valid() && fresh(temp) && Precede(temp, chain, Landing(chain, key), m_level)
      ensures x == chain[Landing(chain, key) - 1]
      ensures moves == Moves(chain, Landing(chain, key), 0, m_level) <= Landing(chain, key) - 1
      ensures Splits(View(), key) ==> Landing(chain, key) == Rank(View(), key) + 1
    {
      hide Moves, Landing, Splits;
      ghost var was := chain;
      LandingFacts(was, key);
      temp := new SkipListNode?[SKIPLIST_MAXLEVEL];
      LinksKept(was);
      x, moves := SearchDown(was, temp, m_header, m_level, key);
      LinksKept(was);
      LandingIs(was, key);
    }

    /** Raises the list level to that of a new node; above the old one the header precedes all. */
    method RaiseLevel(temp: array<SkipListNode?>, newlevel: nat, ghost c: nat)
      requires Valid() && Precede(temp, chain, c, m_level) && newlevel <= SKIPLIST_MAXLEVEL
      modifies temp, this`m_level
      ensures m_level == if old(m_level) < newlevel then newlevel else old(m_level)
      ensures Precede(temp, chain, c, m_level) && AllLinked(chain)
    {
      ChainTop(chain);
      if newlevel > m_level {
        for i := m_level to newlevel
          invariant forall j: nat {:trigger temp[j]} :: j < i ==> temp[j] == PredAt(chain, c, j)
        {
          PredAtTop(chain, c, i);
          temp[i] := m_header;
        }
        m_level := newlevel;
      }
      LinksKept(chain);
    }

    /** Puts a new node behind the predecessors found, on every level of its tower. */
    method Attach(temp: array<SkipListNode?>, x: SkipListNode, ghost c: nat, ghost top: nat)
      requires Counted() && AllLinked(chain) && Precede(temp, chain, c, m_level)
      requires x.IsTower() && x.stamp == next
      requires top == TopLevel(chain) && m_level == if top < Height(x) then Height(x) else top
      modifies this`chain, this`next, this`m_length, Cells(chain), x.m_level
      ensures Valid() && next == old(next) + 1
      ensures IsSplice(chain, old(chain), c, x)
      ensures forall o <- Cells(chain) :: o in old(Cells(chain)) || o in x.m_level
    {
      ghost var was := chain;
      ghost var s := MakeSplice(was, c, x);
      SpliceIsChain(s, was, c, x);
      SpliceCells(s, was, c, x);
      SpliceTop(s, was, c, x);
      SpliceStamps(s, was, c, x, next);
      WeaveIn(s, was, c, temp, x);
      label L:
      m_length := m_length + 1;
      chain, next := s, next + 1;
      LinksKept@L(s);
    }

    method InsertNode(score: uint32, handler: nat, draws: seq<nat>) returns (x: SkipListNode)
      requires Valid()
      modifies this, Cells(chain)
      ensures Valid() && fresh(x) && fresh(Cells(chain) - old(Cells(chain)))
      ensures x.AsTimer() == Timer(old(next), Stored(score), handler) && next == old(next) + 1
      ensures Height(x) == LevelOf(draws)
      ensures IsSplice(chain, old(chain), Landing(old(chain), score), x)
      ensures Splits(old(View()), score) ==> View() == Insert(old(View()), x.AsTimer(), score)
    {
      hide Moves, Landing, Splits;
      ghost var c, was := Landing(chain, score), chain;
      var temp, _, _ := FindPredecessors(score);
      var newlevel := RandomLevel(draws);
      RaiseLevel(temp, newlevel, c);
      x := new SkipListNode(ToInt32(score), newlevel, handler, next);
      LinksKept(was);
      Attach(temp, x, c, old(m_level));
      if Splits(old(View()), score) {
        SpliceIsInsert(chain, was, c, x, score);
      }
    }

    /** Drops the levels the header no longer leads anywhere on. */
    method ShrinkLevel()
      requires Counted() && AllLinked(chain) && 1 <= m_level <= SKIPLIST_MAXLEVEL
      requires forall p :: 1 <= p < |chain| ==> Height(chain[p]) <= m_level
      modifies this`m_level
      ensures m_level == TopLevel(chain)
    {
      while m_level > 1 && m_header.GetNextNodeOfLevel(m_level - 1) == null
        invariant 1 <= m_level <= SKIPLIST_MAXLEVEL && AllLinked(chain)
        invariant forall p :: 1 <= p < |chain| ==> Height(chain[p]) <= m_level
      {
        assert Linked(chain, m_level - 1);
        assert LinkOk(chain, 0, m_level - 1);
        label L:
        m_level := m_level - 1;
        LinksKept@L(chain);
      }
      if m_level > 1 {
        assert Linked(chain, m_level - 1);
        assert LinkOk(chain, 0, m_level - 1);
        assert Height(chain[NextPos(chain, 1, m_level - 1)]) == m_level;
      }
      TopUnique(chain, m_level);
    }

    /** Takes the node at position `c` out of every level and adjusts the counts. */
    method Detach(temp: array<SkipListNode?>, delNode: SkipListNode, ghost c: nat)
      requires Valid() && Precede(temp, chain, c, m_level) && c < |chain| && delNode == chain[c]
      modifies this`chain, this`m_level, this`m_length, Cells(chain)
      ensures Valid() && Cells(chain) <= old(Cells(chain))
      ensures IsSplice(old(chain), chain, c, delNode)
    {
      ghost var s := chain;
      ghost var left := MakeUnsplice(s, c);
      UnspliceIsChain(s, left, c, delNode);
      SpliceCells(s, left, c, delNode);
      UnspliceStamps(s, left, c, delNode, next);
      UnspliceHeights(s, left, c, delNode);
      forall i: nat | i < m_level
        ensures temp[i] == PredAt(left, c, i)
      {
        PredAtPrefix(s, left, c, i);
      }
      WeaveOut(s, left, c, temp, delNode, m_level);
      label L:
      chain := left;
      m_length := m_length - 1;
      LinksKept@L(left);
      ShrinkLevel();
    }

    /**
     Removes the node the search lands at if its score is that of `snode`; otherwise nothing changes.
     In a list the score parts in two that is the first node with the score, and so `snode` itself
     only if no newer node has it.
     */
    method DelNode(snode: SkipListNode)
      requires Valid()
      modifies this, Cells(chain)
      ensures Valid() && next == old(next) && Cells(chain) <= old(Cells(chain))
      ensures var c := Landing(old(chain), snode.m_score);
              if c < |old(chain)| && old(chain)[c].m_score == snode.m_score
              then IsSplice(old(chain), chain, c, old(chain)[c])
              else chain == old(chain) && m_level == old(m_level) && m_length == old(m_length)
      ensures Splits(old(View()), snode.m_score) ==> View() == Remove(old(View()), snode.m_score)
      ensures Splits(old(View()), snode.m_score) ==>
                Landing(old(chain), snode.m_score) == Rank(old(View()), snode.m_score) + 1
      ensures Banded(old(View())) ==> Banded(View())
    {
      hide Moves, Landing, Splits, Banded;
      ghost var c, was := Landing(chain, snode.m_score), chain;
      var temp, x, _ := FindPredecessors(snode.GetScore());
      BottomLink(was, c);
      var delNode := x.GetNextNodeOfLevel(0);
      if delNode != null && delNode.GetScore() == snode.GetScore() {
        Detach(temp, delNode, c);
        if Banded(old(View())) {
          UnspliceBanded(was, chain, c, delNode);
        }
        if Splits(old(View()), snode.m_score) {
          UnspliceIsRemove(was, chain, c, delNode, snode.m_score);
        }
      }
    }

    method GetMinNode() returns (x: SkipListNode?)
      requires Valid()
      ensures x == if View() == [] then null else chain[1]
      ensures x != null ==> x.AsTimer() == View()[0]
    {
      BottomLink(chain, 1);
      x := m_header.GetNextNodeOfLevel(0);
    }

    /** Removes exactly the node GetMinNode returns, although it searches for it by score. */
    method DelHeadNode()
      requires Valid()
      modifies this, Cells(chain)
      ensures Valid() && next == old(next) && Cells(chain) <= old(Cells(chain))
      ensures old(View()) == [] ==> chain == old(chain)
      ensures Banded(old(View())) ==> Banded(View())
      ensures old(View()) != [] && Splits(old(View()), old(View())[0].score) ==>
                View() == old(View())[1..] && IsSplice(old(chain), chain, 1, old(chain)[1])
    {
      var header := GetMinNode();
      if header == null {
        return;
      }
      RemoveHead(View());
      RankUnique(View(), header.m_score, 0);
      DelNode(header);
    }

    /** Inserts a timer due `mesc` after the clock reading `now`, in wrapping 32-bit arithmetic. */
    method AddTimer(mesc: uint32, now: uint32, handler: nat, draws: seq<nat>) returns (x: SkipListNode)
      requires Valid()
      modifies this, Cells(chain)
      ensures Valid() && fresh(x) && fresh(Cells(chain) - old(Cells(chain)))
      ensures x.AsTimer() == Timer(old(next), Stored(Deadline(mesc, now)), handler) && next == old(next) + 1
      ensures Height(x) == LevelOf(draws)
      ensures IsSplice(chain, old(chain), Landing(old(chain), Deadline(mesc, now)), x)
      ensures Splits(old(View()), Deadline(mesc, now)) ==>
                View() == Insert(old(View()), x.AsTimer(), Deadline(mesc, now))
      ensures Banded(old(View())) ==> Splits(old(View()), Deadline(mesc, now)) && Banded(View())
    {
      var due: uint32 := (mesc + now) % U32;
      if Banded(View()) {
        BandedSplits(View(), due);
      }
      x := InsertNode(due, handler, draws);
      if Banded(old(View())) {
        assert StampsBelow(old(View()), x.stamp);
        InsertBanded(old(View()), x.AsTimer(), due);
      }
    }

    method DelTimer(snode: SkipListNode)
      requires Valid()
      modifies this, Cells(chain)
      ensures Valid() && next == old(next) && Cells(chain) <= old(Cells(chain))
      ensures var c := Landing(old(chain), snode.m_score);
              if c < |old(chain)| && old(chain)[c].m_score == snode.m_score
              then IsSplice(old(chain), chain, c, old(chain)[c])
              else chain == old(chain) && m_level == old(m_level) && m_length == old(m_length)
      ensures Splits(old(View()), snode.m_score) ==> View() == Remove(old(View()), snode.m_score)
      ensures Banded(old(View())) ==> Banded(View())
    {
      DelNode(snode);
    }
  }
}
