/**
 What the links of a level amount to: following them from the header visits the nodes of level 0
 that are taller than the level, in order, and ends.  Insertion and removal change each of these
 level sequences at one place or not at all.
 */
module Levels {
  import opened TimerSpec
  import opened SkipListNodes
  import opened Chains
  import opened SkipLists

  /** Level `i` of the list as a sequence: the subsequence of level 0 of the nodes taller than `i`. */
  ghost function Level(chain: Chain, i: nat): Chain
    requires 1 <= |chain|
  {
    Tall(chain, 1, |chain|, i)
  }

  /** Following the links of level `i` from `n` visits exactly `path` and then ends. */
  ghost predicate Walk(n: SkipListNode, i: nat, path: Chain)
    requires i < Height(n)
    reads *
    decreases path
  {
    if path == [] then n.m_level[i].m_next == null
    else
      && n.m_level[i].m_next == path[0] && i < Height(path[0])
      && Walk(path[0], i, path[1..])
  }

  /** Positions too short for the level contribute nothing. */
  lemma {:induction false} TallSkip(chain: Chain, p: nat, i: nat)
    requires p <= |chain|
    ensures var n := NextPos(chain, p, i);
            Tall(chain, p, |chain|, i) ==
            if n == |chain| then [] else [chain[n]] + Tall(chain, n + 1, |chain|, i)
    decreases |chain| - p
  {
    if p < |chain| && Height(chain[p]) <= i {
      TallSkip(chain, p + 1, i);
    }
  }

  lemma {:induction false} WalkFrom(chain: Chain, p: nat, i: nat)
    requires Linked(chain, i) && p < |chain| && i < Height(chain[p])
    ensures Walk(chain[p], i, Tall(chain, p + 1, |chain|, i))
    decreases |chain| - p
  {
    var n, path := NextPos(chain, p + 1, i), Tall(chain, p + 1, |chain|, i);
    assert LinkOk(chain, p, i);
    TallSkip(chain, p + 1, i);
    if n < |chain| {
      WalkFrom(chain, n, i);
      assert path[1..] == Tall(chain, n + 1, |chain|, i);
    }
  }

  /** In a valid list every level, walked from the header, is the subsequence it has to be. */
  lemma LevelsAreSubsequences(sl: SkipList, i: nat)
    requires sl.Valid() && i < SKIPLIST_MAXLEVEL
    ensures Walk(sl.m_header, i, Level(sl.chain, i))
    ensures sl.m_level <= i ==> Level(sl.chain, i) == []
    ensures Level(sl.chain, 0) == sl.chain[1..]
    ensures |Level(sl.chain, 0)| == sl.m_length
  {
    var chain := sl.chain;
    assert Linked(chain, i);
    WalkFrom(chain, 0, i);
    ChainTop(chain);
    if sl.m_level <= i {
      TallSkip(chain, 1, i);
    }
    TallBottom(chain, 1);
  }

  lemma {:induction false} TallBottom(chain: Chain, p: nat)
    requires IsChain(chain) && p <= |chain|
    ensures Tall(chain, p, |chain|, 0) == chain[p..]
    decreases |chain| - p
  {
    if p < |chain| {
      assert chain[p].IsTower();
      TallBottom(chain, p + 1);
    }
  }

  lemma {:induction false} TallSplit(chain: Chain, p: nat, c: nat, i: nat)
    requires p <= c <= |chain|
    ensures Tall(chain, p, |chain|, i) == Tall(chain, p, c, i) + Tall(chain, c, |chain|, i)
    decreases c - p
  {
    if p < c {
      TallSplit(chain, p + 1, c, i);
    }
  }

  /** Before the new node and behind it the level sequences are the old ones. */
  lemma {:induction false} SpliceFront(s: Chain, chain: Chain, c: nat, x: SkipListNode, p: nat, i: nat)
    requires IsSplice(s, chain, c, x) && p <= c
    ensures Tall(s, p, c, i) == Tall(chain, p, c, i)
    decreases c - p
  {
    if p < c {
      assert s[p] == chain[p];
      SpliceFront(s, chain, c, x, p + 1, i);
    }
  }

  lemma {:induction false} SpliceBack(s: Chain, chain: Chain, c: nat, x: SkipListNode, p: nat, i: nat)
    requires IsSplice(s, chain, c, x) && c <= p <= |chain|
    ensures Tall(s, p + 1, |s|, i) == Tall(chain, p, |chain|, i)
    decreases |chain| - p
  {
    if p < |chain| {
      assert s[p + 1] == chain[p];
      SpliceBack(s, chain, c, x, p + 1, i);
    }
  }

  lemma {:induction false} TallIn(chain: Chain, p: nat, q: nat, i: nat, j: nat)
    requires p <= q <= |chain| && j < |Tall(chain, p, q, i)|
    ensures exists m :: p <= m < q && chain[m] == Tall(chain, p, q, i)[j]
    decreases q - p
  {
    if p < q {
      if i < Height(chain[p]) {
        if j > 0 {
          TallIn(chain, p + 1, q, i, j - 1);
        }
      } else {
        TallIn(chain, p + 1, q, i, j);
      }
    }
  }

  /** The cut of the key cuts every level. */
  lemma TallCut(chain: Chain, c: nat, key: nat, i: nat)
    requires IsCut(chain, c, key)
    ensures forall n <- Tall(chain, 1, c, i) :: n.m_score < key
    ensures forall n <- Tall(chain, c, |chain|, i) :: key <= n.m_score
  {
    forall j | 0 <= j < |Tall(chain, 1, c, i)|
      ensures Tall(chain, 1, c, i)[j].m_score < key
    {
      TallIn(chain, 1, c, i, j);
    }
    forall j | 0 <= j < |Tall(chain, c, |chain|, i)|
      ensures key <= Tall(chain, c, |chain|, i)[j].m_score
    {
      TallIn(chain, c, |chain|, i, j);
    }
  }

  /**
   Splicing `x` in at the cut of `key` puts it, on each level it reaches, between the nodes with
   scores below the key and the others, and leaves the levels it does not reach as they were.
   Read from `s` to `chain` it says what removing `x` does to each level.
   */
  lemma SpliceLevel(s: Chain, chain: Chain, c: nat, x: SkipListNode, key: nat, i: nat) returns (low: Chain, high: Chain)
    requires 1 <= c && IsSplice(s, chain, c, x) && IsCut(chain, c, key)
    ensures Level(chain, i) == low + high
    ensures (forall n <- low :: n.m_score < key) && forall n <- high :: key <= n.m_score
    ensures Level(s, i) == low + (if i < Height(x) then [x] else []) + high
  {
    low, high := Tall(chain, 1, c, i), Tall(chain, c, |chain|, i);
    TallCut(chain, c, key, i);
    TallSplit(chain, 1, c, i);
    TallSplit(s, 1, c, i);
    SpliceFront(s, chain, c, x, 1, i);
    SpliceBack(s, chain, c, x, c, i);
  }
}
