/**
 The search that insertion and removal start with: from the top level down, on every level as far as
 the scores stay below the key.  It is described for any list, in order or not; where the key parts the
 list in two, it ends where a linear scan of level 0 ends.
 */
module Search {
  import opened TimerSpec
  import opened SkipListNodes
  import opened Chains

  /** Where the inner loop, started at position `p` on level `i`, stops. */
  ghost function AdvancePos(chain: Chain, p: nat, key: nat, i: nat): (r: nat)
    requires p < |chain|
    ensures p <= r < |chain|
    ensures i < Height(chain[p]) ==> i < Height(chain[r])
    ensures r == p || chain[r].m_score < key
    decreases |chain| - p
  {
    var n := NextPos(chain, p + 1, i);
    if n < |chain| && chain[n].m_score < key then AdvancePos(chain, n, key, i) else p
  }

  /** Where the outer loop ends, started at position `p` with the levels below `i` to go. */
  ghost function SearchPos(chain: Chain, p: nat, key: nat, i: nat): (r: nat)
    requires p < |chain|
    ensures p <= r < |chain|
    ensures r == p || chain[r].m_score < key
    decreases i
  {
    if i == 0 then p else SearchPos(chain, AdvancePos(chain, p, key, i - 1), key, i - 1)
  }

  /** The position at which a node with that key is put or looked for. */
  ghost function Landing(chain: Chain, key: nat): (c: nat)
    requires 1 <= |chain|
    ensures 1 <= c <= |chain|
  {
    SearchPos(chain, 0, key, TopLevel(chain)) + 1
  }

  /** Level `i` leads no further from position `p`. */
  ghost predicate Barred(chain: Chain, p: nat, key: nat, i: nat)
    requires p < |chain|
  {
    var n := NextPos(chain, p + 1, i);
    n < |chain| ==> key <= chain[n].m_score
  }

  lemma AdvanceHop(chain: Chain, p: nat, key: nat, i: nat)
    requires p < |chain|
    ensures var n := NextPos(chain, p + 1, i);
            AdvancePos(chain, p, key, i) ==
            if n < |chain| && chain[n].m_score < key then AdvancePos(chain, n, key, i) else p
  {
  }

  lemma {:induction false} AdvanceBarred(chain: Chain, p: nat, key: nat, i: nat)
    requires p < |chain|
    ensures Barred(chain, AdvancePos(chain, p, key, i), key, i)
    decreases |chain| - p
  {
    var n := NextPos(chain, p + 1, i);
    if n < |chain| && chain[n].m_score < key {
      AdvanceBarred(chain, n, key, i);
    }
  }

  /** Positions too short for a level do not change its predecessor. */
  lemma {:induction false} PredSkip(chain: Chain, c: nat, d: nat, j: nat)
    requires IsChain(chain) && 1 <= c <= d <= |chain| && j < SKIPLIST_MAXLEVEL
    requires forall q :: c <= q < d ==> Height(chain[q]) <= j
    ensures PredPos(chain, d, j) == PredPos(chain, c, j)
    decreases d - c
  {
    if c < d {
      PredSkip(chain, c, d - 1, j);
    }
  }

  /** A tower that bars a level bars the levels below it: the search cannot get past it there. */
  lemma HopStaysBehind(chain: Chain, p: nat, key: nat, i: nat, j: nat)
    requires p < |chain| && i <= j && Barred(chain, p, key, j)
    ensures var n := NextPos(chain, p + 1, i);
            n < |chain| && chain[n].m_score < key ==> n < NextPos(chain, p + 1, j)
  {
  }

  lemma HopKeeps(chain: Chain, p: nat, n: nat, j: nat)
    requires IsChain(chain) && p < |chain| && p < n < NextPos(chain, p + 1, j) && j < SKIPLIST_MAXLEVEL
    ensures NextPos(chain, n + 1, j) == NextPos(chain, p + 1, j)
    ensures PredPos(chain, n + 1, j) == PredPos(chain, p + 1, j)
  {
    NextPosUnique(chain, n + 1, j, NextPos(chain, p + 1, j));
    PredSkip(chain, p + 1, n + 1, j);
  }

  /** So advancing on a level changes nothing about the levels above, which are done. */
  lemma {:induction false} AdvanceKeeps(chain: Chain, p: nat, key: nat, i: nat, j: nat)
    requires IsChain(chain) && p < |chain| && i <= j < SKIPLIST_MAXLEVEL && Barred(chain, p, key, j)
    ensures var r := AdvancePos(chain, p, key, i);
            PredPos(chain, r + 1, j) == PredPos(chain, p + 1, j) && Barred(chain, r, key, j)
    decreases |chain| - p
  {
    hide PredPos, NextPos, AdvancePos;
    AdvanceHop(chain, p, key, i);
    var n := NextPos(chain, p + 1, i);
    if n < |chain| && chain[n].m_score < key {
      HopStaysBehind(chain, p, key, i, j);
      HopKeeps(chain, p, n, j);
      AdvanceKeeps(chain, n, key, i, j);
    }
  }

  lemma SearchStep(chain: Chain, p: nat, key: nat, i: nat)
    requires p < |chain|
    ensures SearchPos(chain, p, key, i + 1) == SearchPos(chain, AdvancePos(chain, p, key, i), key, i)
  {
  }

  /** Where the search ends, level 0 leads no further. */
  lemma {:induction false} SearchBarred(chain: Chain, p: nat, key: nat, i: nat)
    requires p < |chain| && 0 < i
    ensures Barred(chain, SearchPos(chain, p, key, i), key, 0)
    decreases i
  {
    if i == 1 {
      AdvanceBarred(chain, p, key, 0);
      assert SearchPos(chain, p, key, 1) == SearchPos(chain, AdvancePos(chain, p, key, 0), key, 0);
    } else {
      SearchBarred(chain, AdvancePos(chain, p, key, i - 1), key, i - 1);
    }
  }

  /** If the key parts the list in two, the search ends at the parting, whatever the towers. */
  lemma LandsAtCut(chain: Chain, c: nat, key: nat)
    requires IsChain(chain) && IsCut(chain, c, key)
    ensures Landing(chain, key) == c
  {
    var p := SearchPos(chain, 0, key, TopLevel(chain));
    SearchBarred(chain, 0, key, TopLevel(chain));
    assert p + 1 < |chain| ==> chain[p + 1].IsTower();
    assert p + 1 < |chain| ==> NextPos(chain, p + 1, 0) == p + 1;
    assert !(p + 1 < c);
  }

  // ---- work

  lemma {:induction false} TallSize(chain: Chain, p: nat, q: nat, i: nat)
    requires p <= q <= |chain|
    ensures |Tall(chain, p, q, i)| <= q - p
    decreases q - p
  {
    if p < q {
      TallSize(chain, p + 1, q, i);
    }
  }

  /** Where the search before position `c` comes to level `i`, with `top` levels in all. */
  ghost function ComesFrom(chain: Chain, c: nat, i: nat, top: nat): (p: nat)
    requires IsChain(chain) && 1 <= c <= |chain| && i <= top <= SKIPLIST_MAXLEVEL
    ensures p < c
  {
    if i == top then 0 else PredPos(chain, c, i)
  }

  /** The links followed on level `i` and above: on each level, one for every node of it passed. */
  ghost function Moves(chain: Chain, c: nat, i: nat, top: nat): nat
    requires IsChain(chain) && 1 <= c <= |chain| && i <= top <= SKIPLIST_MAXLEVEL
    decreases top - i
  {
    if i == top then 0
    else
      var p, q := ComesFrom(chain, c, i + 1, top), PredPos(chain, c, i);
      Moves(chain, c, i + 1, top) + if p <= q then |Tall(chain, p + 1, q + 1, i)| else 0
  }

  lemma MovesStep(chain: Chain, c: nat, i: nat, top: nat)
    requires IsChain(chain) && 1 <= c <= |chain| && i < top <= SKIPLIST_MAXLEVEL
    ensures var p, q := ComesFrom(chain, c, i + 1, top), PredPos(chain, c, i);
            Moves(chain, c, i, top) ==
            Moves(chain, c, i + 1, top) + if p <= q then |Tall(chain, p + 1, q + 1, i)| else 0
  {
  }

  /** The search passes no position twice, so it never follows more links than the linear scan. */
  lemma {:induction false} MovesBound(chain: Chain, c: nat, i: nat, top: nat)
    requires IsChain(chain) && 1 <= c <= |chain| && i <= top <= SKIPLIST_MAXLEVEL
    ensures Moves(chain, c, i, top) <= ComesFrom(chain, c, i, top)
    decreases top - i
  {
    if i < top {
      var p, q := ComesFrom(chain, c, i + 1, top), PredPos(chain, c, i);
      MovesBound(chain, c, i + 1, top);
      assert p <= q;
      TallSize(chain, p + 1, q + 1, i);
    }
  }

  /** Positions `c` and `d` have the same predecessors on the levels from `i` up. */
  ghost predicate SamePreds(chain: Chain, c: nat, d: nat, i: nat, top: nat)
    requires IsChain(chain) && 1 <= c <= |chain| && 1 <= d <= |chain| && top <= SKIPLIST_MAXLEVEL
  {
    forall j: nat {:trigger PredPos(chain, d, j)} :: i <= j < top ==> PredPos(chain, c, j) == PredPos(chain, d, j)
  }

  lemma {:induction false} MovesSame(chain: Chain, c: nat, d: nat, i: nat, top: nat)
    requires IsChain(chain) && 1 <= c <= |chain| && 1 <= d <= |chain| && i <= top <= SKIPLIST_MAXLEVEL
    requires SamePreds(chain, c, d, i, top)
    ensures Moves(chain, c, i, top) == Moves(chain, d, i, top)
    decreases top - i
  {
    hide Tall, PredPos;
    if i < top {
      assert PredPos(chain, c, i) == PredPos(chain, d, i);
      assert i + 1 < top ==> PredPos(chain, c, i + 1) == PredPos(chain, d, i + 1);
      MovesSame(chain, c, d, i + 1, top);
    }
  }

  lemma {:induction false} TallConcat(chain: Chain, p: nat, q: nat, r: nat, i: nat)
    requires p <= q <= r <= |chain|
    ensures Tall(chain, p, r, i) == Tall(chain, p, q, i) + Tall(chain, q, r, i)
    decreases q - p
  {
    if p < q {
      TallConcat(chain, p + 1, q, r, i);
    }
  }

  lemma TallEmpty(chain: Chain, p: nat, i: nat)
    requires p <= |chain|
    ensures Tall(chain, p, p, i) == []
  {
  }

  lemma {:induction false} TallNone(chain: Chain, p: nat, q: nat, i: nat)
    requires p <= q <= |chain| && forall m :: p <= m < q ==> Height(chain[m]) <= i
    ensures Tall(chain, p, q, i) == []
    decreases q - p
  {
    if p < q {
      TallNone(chain, p + 1, q, i);
    }
  }

  /** Following one more link passes one more node of the level. */
  lemma TallNext(chain: Chain, p0: nat, p: nat, i: nat)
    requires p0 <= p < |chain| && NextPos(chain, p + 1, i) < |chain|
    ensures var n := NextPos(chain, p + 1, i);
            |Tall(chain, p0 + 1, n + 1, i)| == |Tall(chain, p0 + 1, p + 1, i)| + 1
  {
    var n := NextPos(chain, p + 1, i);
    TallConcat(chain, p0 + 1, p + 1, n + 1, i);
    TallConcat(chain, p + 1, n, n + 1, i);
    TallNone(chain, p + 1, n, i);
    assert Tall(chain, n, n + 1, i) == [chain[n]] + Tall(chain, n + 1, n + 1, i);
  }

  /** Where and how the search for a node with that key ends, in terms of the queue. */
  lemma LandingFacts(chain: Chain, key: nat)
    requires IsChain(chain)
    ensures Splits(Timers(chain), key) ==> Landing(chain, key) == Rank(Timers(chain), key) + 1
    ensures 1 <= TopLevel(chain) <= SKIPLIST_MAXLEVEL
    ensures Moves(chain, Landing(chain, key), 0, TopLevel(chain)) <= Landing(chain, key) - 1
  {
    ChainTop(chain);
    if Splits(Timers(chain), key) {
      RankIsCut(chain, key);
      LandsAtCut(chain, Rank(Timers(chain), key) + 1, key);
    }
    MovesBound(chain, Landing(chain, key), 0, TopLevel(chain));
  }

  lemma LandingIs(chain: Chain, key: nat)
    requires 1 <= |chain|
    ensures Landing(chain, key) == SearchPos(chain, 0, key, TopLevel(chain)) + 1
  {
  }

  // ---- the loops

  /** On every level below `m`, `temp` holds the last node before position `c`. */
  ghost predicate Precede(temp: array<SkipListNode?>, chain: Chain, c: nat, m: nat)
    reads temp
  {
    && IsChain(chain) && 1 <= c <= |chain|
    && m <= temp.Length == SKIPLIST_MAXLEVEL
    && forall i: nat {:trigger temp[i]} :: i < m ==> temp[i] == PredAt(chain, c, i)
  }

  /** The inner loop: along level `i` from `x0` as far as the scores stay below the key. */
  method Advance(ghost chain: Chain, ghost p0: nat, key: nat, i: nat, x0: SkipListNode)
    returns (x: SkipListNode, ghost p: nat, ghost moves: nat)
    requires IsChain(chain) && i < SKIPLIST_MAXLEVEL && AllLinked(chain)
    requires p0 < |chain| && x0 == chain[p0] && i < Height(x0)
    ensures AllLinked(chain)
    ensures p0 <= p == AdvancePos(chain, p0, key, i) && x == chain[p]
    ensures moves == |Tall(chain, p0 + 1, p + 1, i)|
  {
    hide AdvancePos, NextPos, Tall;
    x, p, moves := x0, p0, 0;
    assert Linked(chain, i);
    assert LinkOk(chain, p, i);
    TallEmpty(chain, p0 + 1, i);
    while x.GetNextNodeOfLevel(i) != null && x.GetNextNodeOfLevel(i).GetScore() < key
      invariant p0 <= p < |chain| && x == chain[p] && i < Height(x)
      invariant AdvancePos(chain, p, key, i) == AdvancePos(chain, p0, key, i)
      invariant moves == |Tall(chain, p0 + 1, p + 1, i)|
      invariant LinkOk(chain, p, i)
      decreases |chain| - p
    {
      TallNext(chain, p0, p, i);
      AdvanceHop(chain, p, key, i);
      p := NextPos(chain, p + 1, i);
      x, moves := x.GetNextNodeOfLevel(i), moves + 1;
      assert LinkOk(chain, p, i);
    }
    AdvanceHop(chain, p, key, i);
    LinksKept(chain);
  }

  lemma PredPosHere(chain: Chain, p: nat, i: nat)
    requires IsChain(chain) && p < |chain| && i < SKIPLIST_MAXLEVEL && i < Height(chain[p])
    ensures PredPos(chain, p + 1, i) == p
  {
  }

  /** The levels from `i` up are done: none of them leads further from `p`. */
  ghost predicate AllBarred(chain: Chain, p: nat, key: nat, i: nat, top: nat)
    requires p < |chain|
  {
    forall j: nat {:trigger Barred(chain, p, key, j)} :: i <= j < top ==> Barred(chain, p, key, j)
  }

  /** What one round of the outer loop does to the levels above it, and on its own level. */
  lemma RoundKeeps(chain: Chain, p: nat, key: nat, i: nat, top: nat)
    requires IsChain(chain) && p < |chain| && i < top <= SKIPLIST_MAXLEVEL && i < Height(chain[p])
    requires AllBarred(chain, p, key, i + 1, top)
    ensures var r := AdvancePos(chain, p, key, i);
            && SamePreds(chain, p + 1, r + 1, i + 1, top) && AllBarred(chain, r, key, i, top)
            && PredPos(chain, r + 1, i) == r
  {
    var r := AdvancePos(chain, p, key, i);
    hide PredPos, NextPos, AdvancePos;
    var c, d := p + 1, r + 1;
    forall j: nat | i + 1 <= j < top
      ensures PredPos(chain, c, j) == PredPos(chain, d, j)
    {
      assert Barred(chain, p, key, j);
      AdvanceKeeps(chain, p, key, i, j);
    }
    forall j: nat | i + 1 <= j < top
      ensures Barred(chain, r, key, j)
    {
      assert Barred(chain, p, key, j);
      AdvanceKeeps(chain, p, key, i, j);
    }
    AdvanceBarred(chain, p, key, i);
    PredPosHere(chain, r, i);
  }

  lemma RoundMoves(chain: Chain, p: nat, r: nat, i: nat, top: nat)
    requires IsChain(chain) && p <= r < |chain| && i < top <= SKIPLIST_MAXLEVEL
    requires SamePreds(chain, p + 1, r + 1, i + 1, top)
    requires p == ComesFrom(chain, p + 1, i + 1, top) && PredPos(chain, r + 1, i) == r
    ensures Moves(chain, r + 1, i, top) == Moves(chain, p + 1, i + 1, top) + |Tall(chain, p + 1, r + 1, i)|
  {
    hide Tall, PredPos, Moves;
    MovesStep(chain, r + 1, i, top);
    MovesSame(chain, p + 1, r + 1, i + 1, top);
    assert i + 1 < top ==> PredPos(chain, p + 1, i + 1) == PredPos(chain, r + 1, i + 1);
    assert ComesFrom(chain, r + 1, i + 1, top) == p;
  }

  /** On the levels from `i` up, `temp` holds the last node up to position `p`. */
  ghost predicate Found(temp: array<SkipListNode?>, chain: Chain, p: nat, i: nat, top: nat)
    requires IsChain(chain) && p < |chain| && top <= SKIPLIST_MAXLEVEL == temp.Length
    reads temp
  {
    forall j: nat {:trigger temp[j]} :: i <= j < top ==> temp[j] == PredAt(chain, p + 1, j)
  }

  lemma FoundKept(temp: array<SkipListNode?>, chain: Chain, p: nat, r: nat, i: nat, top: nat)
    requires IsChain(chain) && p < |chain| && r < |chain| && top <= SKIPLIST_MAXLEVEL == temp.Length
    requires Found(temp, chain, p, i, top) && SamePreds(chain, p + 1, r + 1, i, top)
    ensures Found(temp, chain, r, i, top)
  {
    forall j: nat | i <= j < top
      ensures temp[j] == PredAt(chain, r + 1, j)
    {
      assert PredPos(chain, p + 1, j) == PredPos(chain, r + 1, j);
    }
  }

  /** The search for `key` has come down to level `i`, stands at position `p` and has made `moves`. */
  ghost predicate Searching(temp: array<SkipListNode?>, chain: Chain, p: nat, key: nat, i: nat, top: nat, moves: nat)
    requires IsChain(chain) && i <= top <= SKIPLIST_MAXLEVEL == temp.Length
    reads temp
  {
    && p < |chain| && (if i == top then p == 0 else i < Height(chain[p]))
    && p == ComesFrom(chain, p + 1, i, top) && moves == Moves(chain, p + 1, i, top)
    && SearchPos(chain, p, key, i) == SearchPos(chain, 0, key, top)
    && Found(temp, chain, p, i, top) && AllBarred(chain, p, key, i, top)
  }

  lemma SearchStarts(temp: array<SkipListNode?>, chain: Chain, key: nat, top: nat)
    requires IsChain(chain) && top <= SKIPLIST_MAXLEVEL == temp.Length
    ensures Searching(temp, chain, 0, key, top, top, 0)
  {
  }

  lemma SearchEnds(temp: array<SkipListNode?>, chain: Chain, p: nat, key: nat, top: nat, moves: nat)
    requires IsChain(chain) && top <= SKIPLIST_MAXLEVEL == temp.Length
    requires Searching(temp, chain, p, key, 0, top, moves)
    ensures var c := SearchPos(chain, 0, key, top) + 1;
            p == c - 1 && Precede(temp, chain, c, top) && moves == Moves(chain, c, 0, top)
  {
    hide Moves, PredPos;
  }

  method Keep(ghost chain: Chain, temp: array<SkipListNode?>, i: nat, x: SkipListNode)
    requires IsChain(chain) && AllLinked(chain) && i < temp.Length
    modifies temp
    ensures AllLinked(chain) && temp[..] == old(temp[..])[i := x]
  {
    temp[i] := x;
    LinksKept(chain);
  }

  /** One round of the outer loop: the inner loop, and its result kept. */
  method Round(ghost chain: Chain, temp: array<SkipListNode?>, ghost p: nat, key: nat, i: nat, ghost top: nat,
               x0: SkipListNode, ghost moves0: nat)
    returns (x: SkipListNode, ghost r: nat, ghost moves: nat)
    requires IsChain(chain) && AllLinked(chain) && i < top <= SKIPLIST_MAXLEVEL == temp.Length
    requires Searching(temp, chain, p, key, i + 1, top, moves0) && x0 == chain[p]
    modifies temp
    ensures AllLinked(chain) && r < |chain| && x == chain[r]
    ensures Searching(temp, chain, r, key, i, top, moves)
  {
    hide Moves, AllBarred, PredPos, Tall, SearchPos;
    assert chain[p].IsTower();
    ghost var steps;
    x, r, steps := Advance(chain, p, key, i, x0);
    moves := moves0 + steps;
    SearchStep(chain, p, key, i);
    RoundKeeps(chain, p, key, i, top);
    RoundMoves(chain, p, r, i, top);
    FoundKept(temp, chain, p, r, i + 1, top);
    Keep(chain, temp, i, x);
  }

  /** The outer loop: level by level down, going on from where the level above stopped. */
  method SearchDown(ghost chain: Chain, temp: array<SkipListNode?>, header: SkipListNode, top: nat, key: nat)
    returns (x: SkipListNode, ghost moves: nat)
    requires IsChain(chain) && AllLinked(chain) && header == chain[0]
    requires 1 <= top <= temp.Length == SKIPLIST_MAXLEVEL
    modifies temp
    ensures var c := SearchPos(chain, 0, key, top) + 1;
            Precede(temp, chain, c, top) && x == chain[c - 1] && moves == Moves(chain, c, 0, top)
  {
    hide Searching;
    ghost var p: nat := 0;
    x, moves := header, 0;
    SearchStarts(temp, chain, key, top);
    for i := top downto 0
      invariant AllLinked(chain) && p < |chain| && x == chain[p]
      invariant Searching(temp, chain, p, key, i, top, moves)
    {
      x, p, moves := Round(chain, temp, p, key, i, top, x, moves);
    }
    SearchEnds(temp, chain, p, key, top, moves);
  }
}
