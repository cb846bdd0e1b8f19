/**
 The timer queue as a plain sequence of timers, with no towers: what the skip list is meant to
 compute.  Insertion, removal and the head are defined by one linear scan, and the order every
 list must keep is stated here.

 Integer widths are explicit.  A key is an unsigned 32-bit number; the node constructor receives
 it as a signed 32-bit number and stores it as an unsigned 64-bit number.
 */
module TimerSpec {

  const U31: int := 0x8000_0000
  const U32: int := 0x1_0000_0000
  const U64: int := 0x1_0000_0000_0000_0000

  type uint32 = k: int | 0 <= k < U32

  /** The implicit conversion of an unsigned 32-bit argument to a signed 32-bit parameter. */
  function ToInt32(key: uint32): int {
    if key < U31 then key else key - U32
  }

  /** The implicit conversion of a signed 32-bit value to an unsigned 64-bit field. */
  function ToUInt64(score: int): nat
    requires -U31 <= score < U31
  {
    if 0 <= score then score else U64 + score
  }

  /** The score a node ends up with when it is inserted under `key`. */
  function Stored(key: uint32): nat {
    ToUInt64(ToInt32(key))
  }

  /** The clock value at which a timer is due: 32-bit addition, which wraps. */
  function Deadline(delay: uint32, now: uint32): uint32 {
    (delay + now) % U32
  }

  /** The widths in numbers: keys of the upper half are sign-extended to 64 bits. */
  lemma StoredIs(key: uint32)
    ensures key < 0x8000_0000 ==> Stored(key) == key
    ensures key >= 0x8000_0000 ==> Stored(key) == key + 0xFFFF_FFFF_0000_0000
  {
  }

  lemma DeadlineIs(delay: uint32, now: uint32)
    ensures Deadline(delay, now) == delay + now - if delay + now < 0x1_0000_0000 then 0 else 0x1_0000_0000
  {
  }

  /** One timer.  `stamp` is its identity: stamps grow in the order of insertion. */
  datatype Timer = Timer(stamp: nat, score: nat, handler: nat)

  /** `a` stands before `b`: by score, and newest first among equal scores. */
  predicate Before(a: Timer, b: Timer) {
    a.score < b.score || (a.score == b.score && a.stamp > b.stamp)
  }

  ghost predicate Ordered(ts: seq<Timer>) {
    forall i, j :: 0 <= i < j < |ts| ==> Before(ts[i], ts[j])
  }

  /** Every stamp in use is positive and below `next`, the stamp of the next timer. */
  ghost predicate StampsBelow(ts: seq<Timer>, next: nat) {
    forall i :: 0 <= i < |ts| ==> 0 < ts[i].stamp < next
  }

  /** Linear scan: how many leading timers have a score below `key`. */
  function Rank(ts: seq<Timer>, key: nat): (k: nat)
    ensures k <= |ts|
    ensures forall i :: 0 <= i < k ==> ts[i].score < key
    ensures k < |ts| ==> key <= ts[k].score
  {
    if ts == [] || key <= ts[0].score then 0 else 1 + Rank(ts[1..], key)
  }

  function Insert(ts: seq<Timer>, t: Timer, key: nat): seq<Timer> {
    var k := Rank(ts, key);
    ts[..k] + [t] + ts[k..]
  }

  /** Removes the first timer whose score equals `score`; without one nothing changes. */
  function Remove(ts: seq<Timer>, score: nat): seq<Timer> {
    var k := Rank(ts, score);
    if k < |ts| && ts[k].score == score then ts[..k] + ts[k + 1..] else ts
  }

  /** The scan for `key` splits the whole queue, not just a prefix. */
  ghost predicate Splits(ts: seq<Timer>, key: nat) {
    forall i :: 0 <= i < |ts| ==> (ts[i].score < key <==> i < Rank(ts, key))
  }

  lemma RankSplits(ts: seq<Timer>, key: nat)
    requires Ordered(ts)
    ensures Splits(ts, key)
  {
    var k := Rank(ts, key);
    forall i | k <= i < |ts|
      ensures key <= ts[i].score
    {
      assert i == k || Before(ts[k], ts[i]);
    }
  }

  /** The split position is determined by the split. */
  lemma RankUnique(ts: seq<Timer>, key: nat, k: nat)
    requires k <= |ts|
    requires forall i :: 0 <= i < k ==> ts[i].score < key
    requires k < |ts| ==> key <= ts[k].score
    ensures Rank(ts, key) == k
  {
    var r := Rank(ts, key);
    assert !(r < k) && !(k < r);
  }

  /** Insertion, position by position. */
  lemma InsertIndex(ts: seq<Timer>, t: Timer, key: nat)
    ensures var k, us := Rank(ts, key), Insert(ts, t, key);
            && |us| == |ts| + 1 && us[k] == t
            && forall i {:trigger us[i]} :: 0 <= i < |us| && i != k ==> us[i] == ts[if i < k then i else i - 1]
  {
  }

  lemma InsertInOrder(ts: seq<Timer>, t: Timer, key: nat)
    requires Ordered(ts) && StampsBelow(ts, t.stamp) && key <= t.score
    requires var k := Rank(ts, key); k == |ts| || t.score <= ts[k].score
    ensures Ordered(Insert(ts, t, key))
  {
    var k, us := Rank(ts, key), Insert(ts, t, key);
    InsertIndex(ts, t, key);
    forall i, j | 0 <= i < j < |us|
      ensures Before(us[i], us[j])
    {
      if i == k {
        assert us[j] == ts[j - 1];
        assert j - 1 == k || Before(ts[k], ts[j - 1]);
      } else if j == k {
        assert us[i] == ts[i];
      } else {
        assert Before(ts[if i < k then i else i - 1], ts[if j < k then j else j - 1]);
      }
    }
  }

  /**
   When insertion keeps the queue ordered.  It always does for a key in the lower half of the
   32-bit range; in the upper half the stored score is far above the key that was searched for,
   so the order survives only if the new timer happens to belong where the scan stopped.
   */
  lemma InsertOrderedIff(ts: seq<Timer>, t: Timer, key: uint32)
    requires Ordered(ts) && StampsBelow(ts, t.stamp) && t.score == Stored(key)
    ensures var k := Rank(ts, key);
            Ordered(Insert(ts, t, key)) <==> key < U31 || k == |ts| || t.score <= ts[k].score
  {
    var k := Rank(ts, key);
    if key < U31 || k == |ts| || t.score <= ts[k].score {
      InsertInOrder(ts, t, key);
    } else {
      var us := Insert(ts, t, key);
      InsertIndex(ts, t, key);
      assert us[k + 1] == ts[k];
      assert !Before(us[k], us[k + 1]);
    }
  }

  /** Two timers of the upper half break the order, so the condition above is not vacuous. */
  lemma UpperHalfBreaksOrder()
    ensures var one := Insert([], Timer(1, Stored(U31), 0), U31);
            Ordered(one) && !Ordered(Insert(one, Timer(2, Stored(U31 + 1), 0), U31 + 1))
  {
    var one := Insert([], Timer(1, Stored(U31), 0), U31);
    assert one == [Timer(1, Stored(U31), 0)];
    InsertOrderedIff(one, Timer(2, Stored(U31 + 1), 0), U31 + 1);
  }

  // ---- whatever the keys

  /** In the lower half in order; timers of the upper half stand behind it, in any order. */
  ghost predicate Banded(ts: seq<Timer>) {
    && (forall t <- ts :: t.score < U31 || U32 <= t.score)
    && forall i, j :: 0 <= i < j < |ts| && ts[j].score < U31 ==> Before(ts[i], ts[j])
  }

  lemma BandedSplits(ts: seq<Timer>, key: nat)
    requires Banded(ts) && key <= U32
    ensures Splits(ts, key)
  {
    var k := Rank(ts, key);
    forall i | k <= i < |ts|
      ensures key <= ts[i].score
    {
      assert ts[i] in ts;
      assert i == k || ts[i].score >= U31 || Before(ts[k], ts[i]);
    }
  }

  /** Insertion under any key keeps the queue so: order is never lost in the lower half. */
  lemma InsertBanded(ts: seq<Timer>, t: Timer, key: uint32)
    requires Banded(ts) && StampsBelow(ts, t.stamp) && t.score == Stored(key)
    ensures Banded(Insert(ts, t, key))
  {
    var k, us := Rank(ts, key), Insert(ts, t, key);
    InsertIndex(ts, t, key);
    BandedSplits(ts, key);
    hide Rank, Insert;
    forall u <- us
      ensures u.score < U31 || U32 <= u.score
    {
      var i :| 0 <= i < |us| && us[i] == u;
      assert i == k || ts[if i < k then i else i - 1] in ts;
    }
    forall i, j | 0 <= i < j < |us| && us[j].score < U31
      ensures Before(us[i], us[j])
    {
      if i == k {
        assert us[j] == ts[j - 1];
      } else if j == k {
        assert us[i] == ts[i];
      } else {
        assert us[i] == ts[if i < k then i else i - 1] && us[j] == ts[if j < k then j else j - 1];
      }
    }
  }

  lemma RemoveBanded(ts: seq<Timer>, score: nat)
    requires Banded(ts)
    ensures Banded(Remove(ts, score))
  {
    var k := Rank(ts, score);
    var us := Remove(ts, score);
    if us != ts {
      assert forall i :: 0 <= i < |us| ==> us[i] == ts[if i < k then i else i + 1];
    }
  }

  predicate IsDue(score: nat, now: uint32) {
    score <= now
  }

  /** A timer can ever become due exactly when its key lies in the lower half of the range. */
  lemma DueSometimeIff(key: uint32)
    ensures (exists now: uint32 :: IsDue(Stored(key), now)) <==> key < U31
  {
    if key < U31 {
      var now: uint32 := key;
      assert IsDue(Stored(key), now);
    }
  }

  lemma RemoveKeepsOrder(ts: seq<Timer>, score: nat)
    requires Ordered(ts)
    ensures Ordered(Remove(ts, score))
  {
    var k := Rank(ts, score);
    var us := Remove(ts, score);
    if us != ts {
      assert forall i :: 0 <= i < |us| ==> us[i] == ts[if i < k then i else i + 1];
    }
  }

  /** An ordered queue holds no timer twice, nor two timers with one score and one stamp. */
  lemma OrderedDistinct(ts: seq<Timer>, i: nat, j: nat)
    requires Ordered(ts) && i < |ts| && j < |ts| && i != j
    ensures ts[i] != ts[j]
    ensures ts[i].score != ts[j].score || ts[i].stamp != ts[j].stamp
  {
    assert Before(ts[i], ts[j]) || Before(ts[j], ts[i]);
  }

  /** Among the timers with the score of `t`, the scan stops at the newest. */
  lemma RankIsNewest(ts: seq<Timer>, t: Timer)
    requires Ordered(ts) && t in ts
    ensures var k := Rank(ts, t.score);
            k < |ts| && ts[k].score == t.score && t.stamp <= ts[k].stamp
  {
    RankSplits(ts, t.score);
    var k := Rank(ts, t.score);
    var m :| 0 <= m < |ts| && ts[m] == t;
    assert k == m || Before(ts[k], ts[m]);
  }

  ghost predicate IsNewest(ts: seq<Timer>, t: Timer) {
    forall u <- ts :: u.score == t.score ==> u.stamp <= t.stamp
  }

  /** Dropping position `k` takes that timer, and only that one, out of the multiset. */
  lemma DropAt(ts: seq<Timer>, k: nat)
    requires Ordered(ts) && k < |ts|
    ensures multiset(ts[..k] + ts[k + 1..]) == multiset(ts) - multiset{ts[k]}
    ensures ts[k] !in ts[..k] + ts[k + 1..]
  {
    assert ts == ts[..k] + [ts[k]] + ts[k + 1..];
    var us := ts[..k] + ts[k + 1..];
    forall i | 0 <= i < |us|
      ensures us[i] != ts[k]
    {
      OrderedDistinct(ts, if i < k then i else i + 1, k);
    }
  }

  /** In an ordered queue the newest timer of a score is unique. */
  lemma NewestUnique(ts: seq<Timer>, i: nat, j: nat)
    requires Ordered(ts) && i < |ts| && j < |ts|
    requires ts[i].score == ts[j].score && IsNewest(ts, ts[i]) && IsNewest(ts, ts[j])
    ensures ts[i] == ts[j]
  {
    if i != j {
      OrderedDistinct(ts, i, j);
    }
  }

  /**
   Removing by the score of `t` takes out one timer, the newest with that score; so it takes out
   `t` itself exactly when `t` is the newest.
   */
  lemma RemoveTakesNewest(ts: seq<Timer>, t: Timer)
    requires Ordered(ts) && t in ts
    ensures Rank(ts, t.score) < |ts|
    ensures var v := ts[Rank(ts, t.score)];
            && v.score == t.score && IsNewest(ts, v)
            && multiset(Remove(ts, t.score)) == multiset(ts) - multiset{v}
            && v !in Remove(ts, t.score)
            && (v == t <==> IsNewest(ts, t))
  {
    RankIsNewest(ts, t);
    var k := Rank(ts, t.score);
    forall u <- ts | u.score == t.score
      ensures u.stamp <= ts[k].stamp
    {
      RankIsNewest(ts, u);
    }
    if IsNewest(ts, t) {
      var m :| 0 <= m < |ts| && ts[m] == t;
      NewestUnique(ts, k, m);
    }
    DropAt(ts, k);
  }

  /** Cancelling the timer just added restores the queue, in order or not, whatever the key. */
  lemma AddThenCancel(ts: seq<Timer>, t: Timer, key: uint32)
    requires t.score == Stored(key)
    ensures Remove(Insert(ts, t, key), t.score) == ts
  {
    var k := Rank(ts, key);
    var us := Insert(ts, t, key);
    InsertIndex(ts, t, key);
    RankUnique(us, t.score, k);
    assert us[..k] + us[k + 1..] == ts;
  }

  /** Removing by the score of the head removes the head, duplicates or not. */
  lemma RemoveHead(ts: seq<Timer>)
    requires ts != []
    ensures Remove(ts, ts[0].score) == ts[1..]
  {
    RankUnique(ts, ts[0].score, 0);
    assert ts[..0] + ts[1..] == ts[1..];
  }
}
