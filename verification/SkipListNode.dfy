/**
 Nodes of the skip list.  A node owns a tower of cells, one per level it takes part in; a cell holds
 the link to the next node of its level.  Scores, handlers and towers never change after
 construction, so only cells are ever written.

 Ghost stamps and level numbers give every cell an identity, which is what tells cells of different
 nodes, and of different levels, apart.
 */
module SkipListNodes {
  import opened TimerSpec

  const SKIPLIST_MAXLEVEL: nat := 32

  class SkipListLevel {
    ghost const stamp: nat
    ghost const index: nat
    var m_next: SkipListNode?

    constructor (ghost stamp: nat, ghost index: nat)
      ensures m_next == null && this.stamp == stamp && this.index == index
    {
      this.stamp, this.index, m_next := stamp, index, null;
    }

    function GetNextNode(): SkipListNode?
      reads this
    {
      m_next
    }

    method SetNextNode(tmp: SkipListNode?)
      modifies this
      ensures m_next == tmp
    {
      m_next := tmp;
    }
  }

  class SkipListNode {
    ghost const stamp: nat
    const m_score: nat
    const m_handle: nat
    const m_level: seq<SkipListLevel>

    /** The score arrives as a signed 32-bit number and is stored as an unsigned 64-bit one. */
    constructor (score: int, level: nat, handler: nat, ghost stamp: nat)
      requires -U31 <= score < U31 && 1 <= level <= SKIPLIST_MAXLEVEL
      ensures m_score == ToUInt64(score) && m_handle == handler && this.stamp == stamp
      ensures IsTower() && |m_level| == level
      ensures forall i :: 0 <= i < level ==> fresh(m_level[i]) && m_level[i].m_next == null
    {
      m_score, m_handle, this.stamp := ToUInt64(score), handler, stamp;
      var cells: seq<SkipListLevel> := [];
      for i := 0 to level
        invariant |cells| == i
        invariant forall j :: 0 <= j < i ==> fresh(cells[j]) && cells[j].m_next == null
        invariant forall j :: 0 <= j < i ==> cells[j].stamp == stamp && cells[j].index == j
      {
        var cell := new SkipListLevel(stamp, i);
        cells := cells + [cell];
      }
      m_level := cells;
    }

    ghost predicate IsTower() {
      && 1 <= |m_level| <= SKIPLIST_MAXLEVEL
      && forall i :: 0 <= i < |m_level| ==> m_level[i].stamp == stamp && m_level[i].index == i
    }

    ghost function AsTimer(): Timer {
      Timer(stamp, m_score, m_handle)
    }

    function GetScore(): nat {
      m_score
    }

    function GetNextNodeOfLevel(level: nat): SkipListNode?
      requires level < |m_level|
      reads m_level[level]
    {
      m_level[level].GetNextNode()
    }

    method SetNextNodeOfLevel(level: nat, tmp: SkipListNode?)
      requires level < |m_level|
      modifies m_level[level]
      ensures GetNextNodeOfLevel(level) == tmp
    {
      m_level[level].SetNextNode(tmp);
    }
  }
}

/**
 Chains: the header followed by the nodes of level 0.  Level `i` of the list is determined by the
 chain alone, as the nodes whose towers are taller than `i`; everything here is about that index
 structure and reads no heap.
 */
module Chains {
  import opened TimerSpec
  import opened SkipListNodes

  type Chain = seq<SkipListNode>

  ghost function Height(n: SkipListNode): nat {
    |n.m_level|
  }

  /** A header of full height, then proper towers, all with different stamps. */
  ghost predicate IsChain(chain: Chain) {
    && 1 <= |chain| && Height(chain[0]) == SKIPLIST_MAXLEVEL
    && (forall p {:trigger chain[p].IsTower()} :: 0 <= p < |chain| ==> chain[p].IsTower())
    && forall p, q {:trigger chain[p].stamp, chain[q].stamp} ::
         0 <= p < q < |chain| ==> chain[p].stamp != chain[q].stamp
  }

  /** The timers of the nodes after the header. */
  ghost function Timers(chain: Chain): (ts: seq<Timer>)
    requires 1 <= |chain|
    ensures |ts| == |chain| - 1
    ensures forall p :: 0 <= p < |ts| ==> ts[p] == chain[p + 1].AsTimer()
  {
    seq(|chain| - 1, p requires 0 <= p < |chain| - 1 => chain[p + 1].AsTimer())
  }

  /** Position `c` parts the nodes with scores below `key` from the others. */
  ghost predicate IsCut(chain: Chain, c: nat, key: nat) {
    && 1 <= c <= |chain|
    && forall q {:trigger chain[q].m_score} :: 1 <= q < |chain| ==> (chain[q].m_score < key <==> q < c)
  }

  ghost predicate StampsFit(chain: Chain, next: nat) {
    forall p {:trigger chain[p].stamp} :: 1 <= p < |chain| ==> 0 < chain[p].stamp < next
  }

  lemma RankIsCut(chain: Chain, key: nat)
    requires IsChain(chain) && Splits(Timers(chain), key)
    ensures IsCut(chain, Rank(Timers(chain), key) + 1, key)
  {
    assert forall q :: 1 <= q < |chain| ==> Timers(chain)[q - 1] == chain[q].AsTimer();
  }

  /** First position from `p` on whose tower reaches level `i`, or the length. */
  ghost function NextPos(chain: Chain, p: nat, i: nat): (r: nat)
    requires p <= |chain|
    ensures p <= r <= |chain|
    ensures forall q :: p <= q < r ==> Height(chain[q]) <= i
    ensures r < |chain| ==> i < Height(chain[r])
    decreases |chain| - p
  {
    if p == |chain| || i < Height(chain[p]) then p else NextPos(chain, p + 1, i)
  }

  /** Last position before `c` whose tower reaches level `i`; the header always does. */
  ghost function PredPos(chain: Chain, c: nat, i: nat): (r: nat)
    requires IsChain(chain) && 1 <= c <= |chain| && i < SKIPLIST_MAXLEVEL
    ensures r < c && i < Height(chain[r])
    ensures forall q :: r < q < c ==> Height(chain[q]) <= i
  {
    if i < Height(chain[c - 1]) then c - 1 else PredPos(chain, c - 1, i)
  }

  ghost function PredAt(chain: Chain, c: nat, i: nat): SkipListNode
    requires IsChain(chain) && 1 <= c <= |chain| && i < SKIPLIST_MAXLEVEL
  {
    chain[PredPos(chain, c, i)]
  }

  /** What the link of level `i` leaving position `p - 1` has to be. */
  ghost function NextAt(chain: Chain, p: nat, i: nat): SkipListNode?
    requires p <= |chain|
  {
    var r := NextPos(chain, p, i);
    if r < |chain| then chain[r] else null
  }

  /** The nodes taller than `i` from position `p` up to position `q`. */
  ghost function Tall(chain: Chain, p: nat, q: nat, i: nat): Chain
    requires p <= q <= |chain|
    decreases q - p
  {
    if p == q then []
    else if i < Height(chain[p]) then [chain[p]] + Tall(chain, p + 1, q, i)
    else Tall(chain, p + 1, q, i)
  }

  lemma NextPosUnique(chain: Chain, p: nat, i: nat, r: nat)
    requires p <= r <= |chain|
    requires forall q :: p <= q < r ==> Height(chain[q]) <= i
    requires r < |chain| ==> i < Height(chain[r])
    ensures NextPos(chain, p, i) == r
  {
    var n := NextPos(chain, p, i);
    assert !(n < r) && !(r < n);
  }

  /** `s` is `chain` with `x` put at position `c`. */
  ghost predicate IsSplice(s: Chain, chain: Chain, c: nat, x: SkipListNode) {
    && c <= |chain| && |s| == |chain| + 1 && s[c] == x
    && (forall q {:trigger s[q]} :: 0 <= q < c ==> s[q] == chain[q])
    && (forall q {:trigger s[q]} :: c < q < |s| ==> s[q] == chain[q - 1])
  }

  /** `x` may be spliced in once its tower is proper and its stamp is new. */
  lemma SpliceIsChain(s: Chain, chain: Chain, c: nat, x: SkipListNode)
    requires IsChain(chain) && IsSplice(s, chain, c, x) && 1 <= c && x.IsTower()
    requires forall p :: 0 <= p < |chain| ==> chain[p].stamp != x.stamp
    ensures IsChain(s)
  {
    forall q | 0 <= q < |s|
      ensures s[q].IsTower()
    {
      assert q != c ==> chain[if q < c then q else q - 1].IsTower();
    }
  }

  lemma UnspliceIsChain(s: Chain, chain: Chain, c: nat, x: SkipListNode)
    requires IsChain(s) && IsSplice(s, chain, c, x) && 1 <= c
    ensures IsChain(chain)
  {
    assert chain[0] == s[0];
    forall p | 0 <= p < |chain|
      ensures chain[p].IsTower() && chain[p] == s[if p < c then p else p + 1]
    {
      assert s[if p < c then p else p + 1].IsTower();
    }
  }

  /** Splicing a node in at the cut of its key is insertion by linear scan. */
  lemma SpliceIsInsert(s: Chain, chain: Chain, c: nat, x: SkipListNode, key: nat)
    requires 1 <= |chain| && IsSplice(s, chain, c, x) && c == Rank(Timers(chain), key) + 1
    ensures Timers(s) == Insert(Timers(chain), x.AsTimer(), key)
  {
    var ts, us := Timers(chain), Timers(s);
    InsertIndex(ts, x.AsTimer(), key);
    forall i | 0 <= i < |us|
      ensures us[i] == Insert(ts, x.AsTimer(), key)[i]
    {
      assert us[i] == s[i + 1].AsTimer();
    }
  }

  /** Splicing the node at the cut out is removal by linear scan. */
  lemma UnspliceIsRemove(s: Chain, chain: Chain, c: nat, x: SkipListNode, score: nat)
    requires 1 <= |chain| && IsSplice(s, chain, c, x) && c == Rank(Timers(s), score) + 1 && x.m_score == score
    ensures Timers(chain) == Remove(Timers(s), score)
  {
    var ts, us := Timers(chain), Timers(s);
    assert us[c - 1] == s[c].AsTimer();
    forall i | 0 <= i < |ts|
      ensures ts[i] == Remove(us, score)[i]
    {
      assert us[if i < c - 1 then i else i + 1] == s[if i < c - 1 then i + 1 else i + 2].AsTimer();
    }
  }

  /** Taking any node out leaves a list that is in order in its lower half so. */
  lemma UnspliceBanded(s: Chain, chain: Chain, c: nat, x: SkipListNode)
    requires 1 <= |chain| && 1 <= c && IsSplice(s, chain, c, x) && Banded(Timers(s))
    ensures Banded(Timers(chain))
  {
    var ts, us := Timers(chain), Timers(s);
    forall i | 0 <= i < |ts|
      ensures ts[i] == us[if i < c - 1 then i else i + 1]
    {
      assert us[if i < c - 1 then i else i + 1] == s[if i < c - 1 then i + 1 else i + 2].AsTimer();
    }
  }

  /** A new node raises the top to its own height, if that is taller. */
  lemma SpliceTop(s: Chain, chain: Chain, c: nat, x: SkipListNode)
    requires IsSplice(s, chain, c, x) && 1 <= c && IsChain(chain) && x.IsTower()
    ensures TopLevel(s) == if TopLevel(chain) < Height(x) then Height(x) else TopLevel(chain)
  {
    ChainTop(chain);
    var m := TopLevel(chain);
    if m < Height(x) {
      assert Height(s[c]) == Height(x);
      TopUnique(s, Height(x));
    } else {
      if m != 1 {
        var p :| 1 <= p < |chain| && Height(chain[p]) == m;
        assert s[if p < c then p else p + 1] == chain[p];
      }
      TopUnique(s, m);
    }
  }

  lemma SpliceCells(s: Chain, chain: Chain, c: nat, x: SkipListNode)
    requires IsSplice(s, chain, c, x)
    ensures Cells(s) == Cells(chain) + set o | o in x.m_level
  {
    forall p, i | 0 <= p < |chain| && 0 <= i < Height(chain[p])
      ensures chain[p].m_level[i] in Cells(s)
    {
      assert s[if p < c then p else p + 1] == chain[p];
    }
    forall i | 0 <= i < Height(x)
      ensures x.m_level[i] in Cells(s)
    {
      assert s[c] == x;
    }
    forall q, i | 0 <= q < |s| && 0 <= i < Height(s[q])
      ensures s[q].m_level[i] in Cells(chain) + set o | o in x.m_level
    {
      assert q != c ==> s[q] == chain[if q < c then q else q - 1];
    }
  }

  lemma SpliceStamps(s: Chain, chain: Chain, c: nat, x: SkipListNode, next: nat)
    requires IsSplice(s, chain, c, x) && 1 <= c && StampsFit(chain, next) && x.stamp == next && 0 < next
    ensures StampsFit(s, next + 1)
  {
    forall q | 1 <= q < |s|
      ensures 0 < s[q].stamp < next + 1
    {
      assert q != c ==> s[q] == chain[if q < c then q else q - 1];
    }
  }

  /** What is left once the node at position `c` is gone. */
  lemma UnspliceStamps(s: Chain, chain: Chain, c: nat, x: SkipListNode, next: nat)
    requires IsSplice(s, chain, c, x) && 1 <= c && StampsFit(s, next)
    ensures StampsFit(chain, next)
  {
    forall p | 1 <= p < |chain|
      ensures 0 < chain[p].stamp < next
    {
      assert chain[p] == s[if p < c then p else p + 1];
    }
  }

  lemma UnspliceHeights(s: Chain, chain: Chain, c: nat, x: SkipListNode)
    requires IsSplice(s, chain, c, x) && 1 <= c && IsChain(s)
    ensures Height(x) <= TopLevel(s) <= SKIPLIST_MAXLEVEL
    ensures forall p :: 1 <= p < |chain| ==> Height(chain[p]) <= TopLevel(s)
  {
    ChainTop(s);
    var m := TopLevel(s);
    forall p | 1 <= p < |chain|
      ensures Height(chain[p]) <= m
    {
      assert chain[p] == s[if p < c then p else p + 1];
    }
  }

  /** Predecessors depend on what stands before the cut only. */
  lemma {:induction false} PredAtPrefix(s: Chain, chain: Chain, c: nat, i: nat)
    requires IsChain(s) && IsChain(chain) && 1 <= c <= |s| && c <= |chain| && i < SKIPLIST_MAXLEVEL
    requires forall q {:trigger s[q]} :: 0 <= q < c ==> s[q] == chain[q]
    ensures PredAt(s, c, i) == PredAt(chain, c, i)
  {
    assert s[c - 1] == chain[c - 1];
    if Height(s[c - 1]) <= i {
      PredAtPrefix(s, chain, c - 1, i);
    }
  }

  /** Above the tallest tower only the header is left. */
  lemma {:induction false} PredAtTop(chain: Chain, c: nat, i: nat)
    requires IsChain(chain) && 1 <= c <= |chain| && i < SKIPLIST_MAXLEVEL
    requires forall p :: 1 <= p < |chain| ==> Height(chain[p]) <= i
    ensures PredAt(chain, c, i) == chain[0]
  {
    if c > 1 {
      PredAtTop(chain, c - 1, i);
    }
  }

  lemma MakeSplice(chain: Chain, c: nat, x: SkipListNode) returns (s: Chain)
    requires c <= |chain|
    ensures IsSplice(s, chain, c, x)
  {
    s := chain[..c] + [x] + chain[c..];
  }

  lemma MakeUnsplice(s: Chain, c: nat) returns (chain: Chain)
    requires c < |s|
    ensures IsSplice(s, chain, c, s[c])
  {
    chain := s[..c] + s[c + 1..];
  }

  /** Splicing at or before `p` does not change what comes after `p`... */
  lemma {:induction false} SpliceNextAfter(s: Chain, chain: Chain, c: nat, x: SkipListNode, p: nat, i: nat)
    requires IsSplice(s, chain, c, x) && c <= p <= |chain|
    ensures NextAt(s, p + 1, i) == NextAt(chain, p, i)
    decreases |chain| - p
  {
    if p < |chain| {
      assert s[p + 1] == chain[p];
      SpliceNextAfter(s, chain, c, x, p + 1, i);
    }
  }

  /** ... and splicing at or after `p` puts `x` in front of what lies beyond, if it is tall enough. */
  lemma {:induction false} SpliceNextBefore(s: Chain, chain: Chain, c: nat, x: SkipListNode, p: nat, i: nat)
    requires IsSplice(s, chain, c, x) && p <= c
    ensures NextAt(s, p, i) ==
            if NextPos(chain, p, i) < c || Height(x) <= i then NextAt(chain, p, i) else x
    decreases c - p
  {
    if p == c {
      SpliceNextAfter(s, chain, c, x, c, i);
    } else {
      assert s[p] == chain[p];
      SpliceNextBefore(s, chain, c, x, p + 1, i);
    }
  }

  /** Between a predecessor of `c` and `c` there is no tower of that level; before it there is. */
  lemma PredPosNext(chain: Chain, c: nat, i: nat, p: nat)
    requires IsChain(chain) && 1 <= c <= |chain| && i < SKIPLIST_MAXLEVEL
    requires p < |chain| && i < Height(chain[p])
    ensures p < c && p != PredPos(chain, c, i) ==> NextPos(chain, p + 1, i) < c
    ensures p == PredPos(chain, c, i) ==> NextPos(chain, p + 1, i) == NextPos(chain, c, i)
  {
    var r := PredPos(chain, c, i);
    if p == r {
      NextPosUnique(chain, p + 1, i, NextPos(chain, c, i));
    }
  }

  /** `m` is the tallest tower after the header, or 1 if there is none. */
  ghost predicate IsTop(chain: Chain, m: nat) {
    && 1 <= m <= SKIPLIST_MAXLEVEL
    && (forall p :: 1 <= p < |chain| ==> Height(chain[p]) <= m)
    && (m == 1 || exists p :: 1 <= p < |chain| && Height(chain[p]) == m)
  }

  /** The level of the list: the larger of 1 and the tallest tower after the header. */
  ghost function TopLevel(chain: Chain): (m: nat)
    ensures 1 <= m
  {
    if |chain| <= 1 then 1
    else
      var m, h := TopLevel(chain[..|chain| - 1]), Height(chain[|chain| - 1]);
      if m < h then h else m
  }

  lemma {:induction false} TopLevelIsTop(chain: Chain)
    requires forall p :: 1 <= p < |chain| ==> Height(chain[p]) <= SKIPLIST_MAXLEVEL
    ensures IsTop(chain, TopLevel(chain))
  {
    if |chain| > 1 {
      var last := |chain| - 1;
      TopLevelIsTop(chain[..last]);
      var m := TopLevel(chain[..last]);
      if m != 1 && Height(chain[last]) <= m {
        var p :| 1 <= p < last && Height(chain[..last][p]) == m;
        assert Height(chain[p]) == m;
      }
    }
  }

  lemma ChainTop(chain: Chain)
    requires IsChain(chain)
    ensures IsTop(chain, TopLevel(chain))
  {
    assert forall p :: 1 <= p < |chain| ==> chain[p].IsTower();
    TopLevelIsTop(chain);
  }

  lemma TopUnique(chain: Chain, m: nat)
    requires IsTop(chain, m)
    ensures m == TopLevel(chain)
  {
    TopLevelIsTop(chain);
    var t := TopLevel(chain);
    assert !(t < m) && !(m < t);
  }

  ghost function LevelCells(chain: Chain, i: nat): set<SkipListLevel> {
    set p | 0 <= p < |chain| && i < Height(chain[p]) :: chain[p].m_level[i]
  }

  ghost function Cells(chain: Chain): set<SkipListLevel> {
    set p, i | 0 <= p < |chain| && 0 <= i < Height(chain[p]) :: chain[p].m_level[i]
  }

  /** The link of level `i` at position `p` leads to the next tower that reaches the level. */
  ghost predicate LinkOk(chain: Chain, p: nat, i: nat)
    requires p < |chain| && i < Height(chain[p])
    reads chain[p].m_level[i]
  {
    chain[p].m_level[i].m_next == NextAt(chain, p + 1, i)
  }

  ghost predicate Linked(chain: Chain, i: nat)
    reads LevelCells(chain, i)
  {
    forall p: nat {:trigger LinkOk(chain, p, i)} :: p < |chain| && i < Height(chain[p]) ==> LinkOk(chain, p, i)
  }

  ghost predicate AllLinked(chain: Chain)
    reads Cells(chain)
  {
    forall i: nat {:trigger Linked(chain, i)} :: i < SKIPLIST_MAXLEVEL ==> Linked(chain, i)
  }

  /** The links of a level depend on the cells of that level only. */
  twostate lemma LinksKept(chain: Chain)
    requires IsChain(chain)
    ensures forall i: nat {:trigger Linked(chain, i)} ::
              old(Linked(chain, i)) && (forall o <- Cells(chain) :: o.index == i ==> o.m_next == old(o.m_next)) ==>
              Linked(chain, i)
  {
    forall i: nat, p: nat | p < |chain| && i < Height(chain[p])
      ensures old(Linked(chain, i)) && (forall o <- Cells(chain) :: o.index == i ==> o.m_next == old(o.m_next)) ==>
              LinkOk(chain, p, i)
    {
      assert chain[p].IsTower();
      assert old(Linked(chain, i)) ==> old(LinkOk(chain, p, i));
      assert chain[p].m_level[i] in Cells(chain);
    }
  }

  /** Level 0 leads through every node. */
  lemma BottomLink(chain: Chain, c: nat)
    requires IsChain(chain) && 1 <= c <= |chain| && Linked(chain, 0)
    ensures 0 < Height(chain[c - 1])
    ensures chain[c - 1].m_level[0].m_next == if c < |chain| then chain[c] else null
  {
    assert chain[c - 1].IsTower() && LinkOk(chain, c - 1, 0);
    assert c < |chain| ==> chain[c].IsTower();
  }

  /** On one level different positions have different cells. */
  lemma CellsApart(chain: Chain, p: nat, q: nat, i: nat)
    requires IsChain(chain) && p < |chain| && q < |chain| && p != q
    requires i < Height(chain[p]) && i < Height(chain[q])
    ensures chain[p].m_level[i] != chain[q].m_level[i]
  {
    assert chain[p].IsTower() && chain[q].IsTower();
    assert chain[p].stamp != chain[q].stamp;
  }
}
