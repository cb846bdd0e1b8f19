/**
 The expiry loop on values: one pass, what any number of passes does, and exactly when the loop ends.
 */
module TimerExpiry {
  import opened TimerSpec

  /** A call of Add_timer: delay, the clock it reads, the handler, and the coin flips it consumes. */
  datatype Request = Request(mesc: uint32, clock: uint32, handler: nat, draws: seq<nat>) {
    function Key(): uint32 {
      Deadline(mesc, clock)
    }
  }

  /**
   The pending queue, every timer ever added, in order, and the requests these were added for; the
   stamps number them from 1.
   */
  datatype Book = Book(pending: seq<Timer>, added: seq<Timer>, asked: seq<Request>) {
    function Next(): nat {
      |added| + 1
    }

    function NewTimer(r: Request): Timer {
      Timer(Next(), Stored(r.Key()), r.handler)
    }

    function Add(r: Request): Book {
      Book(Insert(pending, NewTimer(r), r.Key()), added + [NewTimer(r)], asked + [r])
    }

    function AddAll(rs: seq<Request>): (b: Book)
      ensures |b.pending| == |pending| + |rs|
      decreases rs
    {
      if rs == [] then this else Add(rs[0]).AddAll(rs[1..])
    }

    /** The queue is in order and stamps are numbered as they should be. */
    ghost predicate Sound() {
      && Ordered(pending)
      && StampsBelow(pending, Next())
      && forall i :: 0 <= i < |added| ==> added[i].stamp == i + 1
    }
  }

  /**
   What the handlers ask for: `h(j, score)` are the requests of the handler of the `j`-th timer fired
   in an expiry, if that timer's score is `score`.
   */
  type Handlers = (nat, nat) -> seq<Request>

  /** The loop goes on: there is a head and it is due. */
  predicate HeadDue(b: Book, now: uint32) {
    b.pending != [] && IsDue(b.pending[0].score, now)
  }

  /**
   One pass of the loop over a due head: its handler runs and adds timers, and only then the head,
   whatever that is by now, is deleted.
   */
  function Pass(b: Book, rs: seq<Request>): Book
    requires b.pending != []
  {
    var m := b.AddAll(rs);
    m.(pending := Remove(m.pending, m.pending[0].score))
  }

  /** How far an expiry has got: the book, and the timers fired so far. */
  datatype Expiry = Expiry(book: Book, fired: seq<Timer>)

  /** The loop cut off after `n` passes, if it has not ended before. */
  function Passes(b: Book, now: uint32, h: Handlers, n: nat): Expiry {
    if n == 0 then Expiry(b, [])
    else
      var e := Passes(b, now, h, n - 1);
      if HeadDue(e.book, now) then
        var x := e.book.pending[0];
        Expiry(Pass(e.book, h(n - 1, x.score)), e.fired + [x])
      else e
  }

  lemma PassesNone(b: Book, now: uint32, h: Handlers)
    ensures Passes(b, now, h, 0) == Expiry(b, [])
  {
  }

  lemma PassesNext(b: Book, now: uint32, h: Handlers, n: nat)
    requires HeadDue(Passes(b, now, h, n).book, now)
    ensures var e := Passes(b, now, h, n);
            var x := e.book.pending[0];
            Passes(b, now, h, n + 1) == Expiry(Pass(e.book, h(n, x.score)), e.fired + [x])
  {
  }

  /** The loop comes to an end. */
  ghost predicate Halts(b: Book, now: uint32, h: Handlers) {
    exists n: nat :: !HeadDue(Passes(b, now, h, n).book, now)
  }

  /** What the loop has done when it ends. */
  ghost function Expire(b: Book, now: uint32, h: Handlers): Expiry
    requires Halts(b, now, h)
  {
    var n: nat :| !HeadDue(Passes(b, now, h, n).book, now);
    Passes(b, now, h, n)
  }

  lemma {:induction false} PassesStay(b: Book, now: uint32, h: Handlers, n: nat, m: nat)
    requires n <= m && !HeadDue(Passes(b, now, h, n).book, now)
    ensures Passes(b, now, h, m) == Passes(b, now, h, n)
    decreases m - n
  {
    if n < m {
      PassesStay(b, now, h, n, m - 1);
    }
  }

  /** Once the loop has ended its outcome is settled. */
  lemma ExpireIs(b: Book, now: uint32, h: Handlers, n: nat)
    requires !HeadDue(Passes(b, now, h, n).book, now)
    ensures Halts(b, now, h) && Expire(b, now, h) == Passes(b, now, h, n)
  {
    var m: nat :| !HeadDue(Passes(b, now, h, m).book, now) && Expire(b, now, h) == Passes(b, now, h, m);
    PassesStay(b, now, h, if n < m then n else m, if n < m then m else n);
  }

  /** Where the loop ends it has made a number of passes. */
  lemma ExpireAfter(b: Book, now: uint32, h: Handlers) returns (n: nat)
    requires Halts(b, now, h)
    ensures !HeadDue(Passes(b, now, h, n).book, now) && Expire(b, now, h) == Passes(b, now, h, n)
  {
    n :| !HeadDue(Passes(b, now, h, n).book, now) && Expire(b, now, h) == Passes(b, now, h, n);
  }

  // ---- one pass, exactly

  /** Adding keeps what is pending, and a head that is not the old one is a new timer. */
  lemma {:induction false} AddAllHead(b: Book, rs: seq<Request>)
    requires b.pending != []
    ensures var h := b.AddAll(rs).pending[0]; h == b.pending[0] || h.stamp >= b.Next()
    decreases rs
  {
    if rs != [] {
      AddAllHead(b.Add(rs[0]), rs[1..]);
    }
  }

  /**
   The pass deletes the timer it fired exactly when its handler asked for nothing due at or before
   that timer's own score.  Otherwise it deletes a newcomer unfired, and the fired timer stays.
   */
  lemma HeadKeptIff(b: Book, rs: seq<Request>)
    requires b.pending != [] && StampsBelow(b.pending, b.Next())
    ensures b.AddAll(rs).pending[0] == b.pending[0] <==> forall r <- rs :: b.pending[0].score < r.Key()
    decreases rs
  {
    if rs != [] {
      var c := b.Add(rs[0]);
      var k := Rank(b.pending, rs[0].Key());
      if b.pending[0].score < rs[0].Key() {
        assert c.pending[0] == b.pending[0];
        InsertStamps(b, rs[0]);
        HeadKeptIff(c, rs[1..]);
        assert forall r <- rs :: r == rs[0] || r in rs[1..];
      } else {
        assert c.pending[0] == b.NewTimer(rs[0]);
        AddAllHead(c, rs[1..]);
        assert rs[0] in rs;
      }
    }
  }

  lemma InsertStamps(b: Book, r: Request)
    requires StampsBelow(b.pending, b.Next())
    ensures StampsBelow(b.Add(r).pending, b.Add(r).Next())
  {
    InsertIndex(b.pending, b.NewTimer(r), r.Key());
  }

  // ---- requests and their keys

  /** A request answered with its true due time, which the wrapping clock arithmetic may miss. */
  predicate InRange(r: Request) {
    r.mesc + r.clock < U31
  }

  /** The stored score is the true due time exactly in the lower half of the range. */
  lemma DueTimeIff(r: Request)
    ensures Stored(r.Key()) == r.mesc + r.clock <==> InRange(r)
  {
    var sum := r.mesc + r.clock;
    assert sum < U32 ==> r.Key() == sum;
    assert U32 <= sum ==> r.Key() == sum - U32;
  }

  /** Keys the list can order; see InsertOrderedIff. */
  predicate KeysFit(rs: seq<Request>) {
    forall r <- rs :: r.Key() < U31
  }

  /** No handler called in an expiry at `now` asks for a key the list cannot order. */
  ghost predicate HandlersFit(now: nat, h: Handlers) {
    forall j: nat, score: nat {:trigger h(j, score)} :: score <= now ==> KeysFit(h(j, score))
  }

  /** All requests come after `score`. */
  ghost predicate Later(score: nat, rs: seq<Request>) {
    forall r <- rs :: score < r.Key() < U31
  }

  /**
   When a handler, reading a clock that has not run backwards, asks for something that does not come
   after the timer being fired: exactly with delay 0, when the clock still shows the reading the expiry
   began with and that is the fired score.
   */
  lemma EarlyIff(r: Request, score: nat, now: uint32)
    requires score <= now <= r.clock && InRange(r)
    ensures r.Key() <= score <==> r.mesc == 0 && r.clock == now == score
  {
    assert r.Key() == r.mesc + r.clock;
  }

  /** When it asks for something due after the reading the expiry began with. */
  lemma LaterIff(r: Request, now: uint32)
    requires now <= r.clock && InRange(r)
    ensures now < r.Key() <==> 0 < r.mesc || now < r.clock
  {
    assert r.Key() == r.mesc + r.clock;
  }

  lemma AddSound(b: Book, r: Request)
    requires b.Sound() && r.Key() < U31
    ensures b.Add(r).Sound()
  {
    InsertOrderedIff(b.pending, b.NewTimer(r), r.Key());
    InsertStamps(b, r);
  }

  lemma {:induction false} AddAllSound(b: Book, rs: seq<Request>)
    requires b.Sound() && forall r <- rs :: r.Key() < U31
    ensures b.AddAll(rs).Sound()
    decreases rs
  {
    if rs != [] {
      assert rs[0] in rs;
      AddSound(b, rs[0]);
      AddAllSound(b.Add(rs[0]), rs[1..]);
    }
  }

  lemma {:induction false} AddAllConcat(b: Book, rs: seq<Request>, qs: seq<Request>)
    ensures b.AddAll(rs).AddAll(qs) == b.AddAll(rs + qs)
    decreases rs
  {
    if rs == [] {
      assert rs + qs == qs;
    } else {
      assert (rs + qs)[0] == rs[0] && (rs + qs)[1..] == rs[1..] + qs;
      AddAllConcat(b.Add(rs[0]), rs[1..], qs);
    }
  }

  function Drop(b: Book, k: nat): Book
    requires k <= |b.pending|
  {
    b.(pending := b.pending[k..])
  }

  lemma {:induction false} RankDrop(ts: seq<Timer>, k: nat, key: nat)
    requires k <= |ts| && forall i :: 0 <= i < k ==> ts[i].score < key
    ensures Rank(ts, key) == k + Rank(ts[k..], key)
  {
    if k == 0 {
      assert ts[0..] == ts;
    } else {
      assert ts[1..][k - 1..] == ts[k..];
      RankDrop(ts[1..], k - 1, key);
    }
  }

  lemma PutDrop<T>(ts: seq<T>, k: nat, m: nat, t: T)
    requires k + m <= |ts|
    ensures (ts[..k + m] + [t] + ts[k + m..])[..k] == ts[..k]
    ensures (ts[..k + m] + [t] + ts[k + m..])[k..] == ts[k..][..m] + [t] + ts[k..][m..]
  {
  }

  lemma AddDrop(b: Book, k: nat, r: Request)
    requires k <= |b.pending| && forall i :: 0 <= i < k ==> b.pending[i].score < r.Key()
    ensures b.Add(r).pending[..k] == b.pending[..k]
    ensures Drop(b.Add(r), k) == Drop(b, k).Add(r)
  {
    RankDrop(b.pending, k, r.Key());
    PutDrop(b.pending, k, Rank(b.pending[k..], r.Key()), b.NewTimer(r));
  }

  /** Adding timers due later commutes with dropping the first ones. */
  lemma {:induction false} AddAllDrop(b: Book, k: nat, rs: seq<Request>)
    requires k <= |b.pending|
    requires forall i, r :: 0 <= i < k && r in rs ==> b.pending[i].score < r.Key()
    ensures b.AddAll(rs).pending[..k] == b.pending[..k]
    ensures Drop(b.AddAll(rs), k) == Drop(b, k).AddAll(rs)
    decreases rs
  {
    if rs != [] {
      assert rs[0] in rs;
      AddDrop(b, k, rs[0]);
      var c := b.Add(rs[0]);
      assert forall i :: 0 <= i < k ==> c.pending[i] == c.pending[..k][i] == b.pending[i];
      AddAllDrop(c, k, rs[1..]);
    }
  }

  /** How many timers are due at `now`. */
  function Due(b: Book, now: nat): nat {
    Rank(b.pending, now + 1)
  }

  lemma DropSound(b: Book, k: nat)
    requires b.Sound() && k <= |b.pending|
    ensures Drop(b, k).Sound()
  {
  }

  /** A good pass deletes what it fired, and what its handler adds commutes with that. */
  lemma PassIsDrop(b: Book, rs: seq<Request>)
    requires b.Sound() && b.pending != [] && Later(b.pending[0].score, rs)
    ensures b.AddAll(rs).pending[0] == b.pending[0]
    ensures Pass(b, rs) == Drop(b, 1).AddAll(rs) && Pass(b, rs).Sound()
  {
    HeadKeptIff(b, rs);
    AddAllSound(b, rs);
    RemoveHead(b.AddAll(rs).pending);
    AddAllDrop(b, 1, rs);
    DropSound(b.AddAll(rs), 1);
  }

  /** The first `n` timers are the due ones if they are due and the rest is not. */
  lemma DueIs(b: Book, now: nat, n: nat)
    requires n <= |b.pending|
    requires forall i :: 0 <= i < n ==> b.pending[i].score <= now
    requires forall t <- Drop(b, n).pending :: now < t.score
    ensures Due(b, now) == n
  {
    assert n < |b.pending| ==> b.pending[n] == Drop(b, n).pending[0];
    RankUnique(b.pending, now + 1, n);
  }

  /** Behind the due timers everything is later. */
  lemma LaterRest(b: Book, now: nat)
    requires b.Sound()
    ensures forall t <- Drop(b, Due(b, now)).pending :: now < t.score
  {
    RankSplits(b.pending, now + 1);
  }

  /** Later timers come behind the due ones. */
  lemma DueKept(b: Book, now: nat, rs: seq<Request>)
    requires b.Sound() && Later(now, rs)
    ensures var n := Due(b, now);
            && Due(b.AddAll(rs), now) == n
            && b.AddAll(rs).pending[..n] == b.pending[..n]
            && Drop(b.AddAll(rs), n) == Drop(b, n).AddAll(rs)
  {
    var n, c := Due(b, now), b.AddAll(rs);
    LaterRest(b, now);
    AddAllDrop(b, n, rs);
    forall i | 0 <= i < n
      ensures c.pending[i].score <= now
    {
      assert c.pending[i] == c.pending[..n][i] == b.pending[i];
    }
    DueAfter(Drop(b, n), now, rs);
    DueIs(c, now, n);
  }

  lemma DueDrop(b: Book, now: nat)
    requires b.pending != [] && b.pending[0].score <= now
    ensures var n := Due(b, now);
            && Due(Drop(b, 1), now) == n - 1
            && Drop(b, 1).pending[..n - 1] == b.pending[1..n]
            && Drop(Drop(b, 1), n - 1) == Drop(b, n)
  {
  }

  /** Timers due later stay due later. */
  lemma {:induction false} DueAfter(b: Book, now: nat, rs: seq<Request>)
    requires Later(now, rs) && forall t <- b.pending :: now < t.score
    ensures forall t <- b.AddAll(rs).pending :: now < t.score
    decreases rs
  {
    if rs != [] {
      var c := b.Add(rs[0]);
      assert rs[0] in rs;
      forall t <- c.pending
        ensures now < t.score
      {
        assert t in b.pending || t == b.NewTimer(rs[0]);
      }
      DueAfter(c, now, rs[1..]);
    }
  }

  /**
   One good pass: it leaves exactly one due timer less, which is the measure of the loop, and the
   other due timers and the later ones as they were, plus what the handler asked for.
   */
  lemma PassExact(b: Book, now: nat, rs: seq<Request>)
    requires b.Sound() && b.pending != [] && b.pending[0].score <= now && Later(now, rs)
    ensures var n, p := Due(b, now), Pass(b, rs);
            && p.Sound() && Due(p, now) == n - 1
            && b.pending[..n] == [b.pending[0]] + p.pending[..n - 1]
            && Drop(p, n - 1) == Drop(b, n).AddAll(rs)
  {
    assert Later(b.pending[0].score, rs);
    PassIsDrop(b, rs);
    DueDrop(b, now);
    DropSound(b, 1);
    DueKept(Drop(b, 1), now, rs);
    Uncons(b.pending, Due(b, now));
  }

  lemma Uncons<T>(ts: seq<T>, n: nat)
    requires 1 <= n <= |ts|
    ensures ts[..n] == [ts[0]] + ts[1..n]
  {
  }

  // ---- the whole loop, with handlers that look ahead

  /** No handler asks for anything due at or before the timer it is called for. */
  ghost predicate LooksAhead(now: nat, h: Handlers) {
    forall j: nat, score: nat {:trigger h(j, score)} :: score <= now ==> Later(score, h(j, score))
  }

  /** Handlers read a clock that has not run backwards and stays in the lower half of its range. */
  ghost predicate Clocked(now: nat, h: Handlers) {
    forall j: nat, score: nat, r: Request {:trigger r in h(j, score)} ::
      score <= now && r in h(j, score) ==> now <= r.clock && InRange(r)
  }

  /**
   Such handlers look ahead exactly if none re-arms with delay 0 at the clock reading its timer was due
   at; re-arming with delay 0 at a later reading does no harm.
   */
  lemma LooksAheadIff(now: uint32, h: Handlers)
    requires Clocked(now, h)
    ensures LooksAhead(now, h) <==>
            forall j: nat, r: Request {:trigger r in h(j, now)} :: r in h(j, now) ==> !(r.mesc == 0 && r.clock == now)
  {
    forall j: nat, score: nat, r: Request | score <= now && r in h(j, score)
      ensures score < r.Key() < U31 <==> !(r.mesc == 0 && r.clock == now == score)
    {
      EarlyIff(r, score, now);
    }
    if LooksAhead(now, h) {
      forall j: nat, r: Request | r in h(j, now)
        ensures !(r.mesc == 0 && r.clock == now)
      {
        assert Later(now, h(j, now));
      }
    }
  }

  lemma PassSound(b: Book, rs: seq<Request>)
    requires b.Sound() && b.pending != [] && KeysFit(rs)
    ensures Pass(b, rs).Sound()
  {
    AddAllSound(b, rs);
    RemoveHead(b.AddAll(rs).pending);
    DropSound(b.AddAll(rs), 1);
  }

  lemma {:induction false} PassesSound(b: Book, now: uint32, h: Handlers, n: nat)
    requires b.Sound() && HandlersFit(now, h)
    ensures Passes(b, now, h, n).book.Sound()
  {
    hide Passes, Pass, Rank, KeysFit;
    if n == 0 {
      PassesNone(b, now, h);
    } else {
      var c := Passes(b, now, h, n - 1).book;
      PassesSound(b, now, h, n - 1);
      if HeadDue(c, now) {
        PassesNext(b, now, h, n - 1);
        PassSound(c, h(n - 1, c.pending[0].score));
      } else {
        PassesStay(b, now, h, n - 1, n);
      }
    }
  }

  lemma AheadFits(now: nat, h: Handlers)
    requires LooksAhead(now, h)
    ensures HandlersFit(now, h)
  {
    forall j: nat, score: nat | score <= now
      ensures KeysFit(h(j, score))
    {
      assert Later(score, h(j, score));
    }
  }

  /** How far the head is from the end of the expiry. */
  function Lag(b: Book, now: uint32): nat {
    if HeadDue(b, now) then now - b.pending[0].score + 1 else 0
  }

  /** How many timers have the score of the head. */
  function AtHead(b: Book): nat {
    if b.pending == [] then 0 else Due(b, b.pending[0].score)
  }

  /** A pass brings the head nearer to the end, or leaves fewer timers with its score. */
  lemma PassShrinks(b: Book, now: uint32, rs: seq<Request>)
    requires b.Sound() && HeadDue(b, now) && Later(b.pending[0].score, rs)
    ensures var p := Pass(b, rs);
            Lag(p, now) < Lag(b, now) || (Lag(p, now) == Lag(b, now) && AtHead(p) < AtHead(b))
  {
    var s, p := b.pending[0].score, Pass(b, rs);
    PassExact(b, s, rs);
    PassIsDrop(b, rs);
    if p.pending != [] {
      HeadLeast(b, rs);
    }
  }

  /** After a pass the head is no earlier than before. */
  lemma HeadLeast(b: Book, rs: seq<Request>)
    requires b.Sound() && b.pending != [] && Later(b.pending[0].score, rs) && Pass(b, rs).pending != []
    ensures b.pending[0].score <= Pass(b, rs).pending[0].score
  {
    hide Pass, Rank;
    var s, p := b.pending[0].score, Pass(b, rs);
    PassIsDrop(b, rs);
    forall t <- Drop(b, 1).pending
      ensures s <= t.score
    {
      var i :| 0 < i < |b.pending| && b.pending[i] == t;
      assert Before(b.pending[0], b.pending[i]);
    }
    AddAllAtLeast(Drop(b, 1), s, rs);
  }

  lemma {:induction false} AddAllAtLeast(b: Book, s: nat, rs: seq<Request>)
    requires Later(s, rs) && forall t <- b.pending :: s <= t.score
    ensures forall t <- b.AddAll(rs).pending :: s <= t.score
    decreases rs
  {
    if rs != [] {
      assert rs[0] in rs;
      forall t <- b.Add(rs[0]).pending
        ensures s <= t.score
      {
        assert t in b.pending || t == b.NewTimer(rs[0]);
      }
      AddAllAtLeast(b.Add(rs[0]), s, rs[1..]);
    }
  }

  lemma {:induction false} HaltsFrom(b: Book, now: uint32, h: Handlers, n: nat)
    requires b.Sound() && LooksAhead(now, h)
    ensures Halts(b, now, h)
    decreases Lag(Passes(b, now, h, n).book, now), AtHead(Passes(b, now, h, n).book)
  {
    var c := Passes(b, now, h, n).book;
    if HeadDue(c, now) {
      AheadFits(now, h);
      PassesSound(b, now, h, n);
      PassShrinks(c, now, h(n, c.pending[0].score));
      HaltsFrom(b, now, h, n + 1);
    }
  }

  /**
   With handlers that look ahead the loop ends, however many timers they keep adding, and even if some
   of these become due in the same expiry.
   */
  lemma LooksAheadHalts(b: Book, now: uint32, h: Handlers)
    requires b.Sound() && LooksAhead(now, h)
    ensures Halts(b, now, h) && Expire(b, now, h).book.Sound()
  {
    HaltsFrom(b, now, h, 0);
    var n := ExpireAfter(b, now, h);
    AheadFits(now, h);
    PassesSound(b, now, h, n);
  }

  // ---- handlers that ask for nothing due in the same expiry: the loop in closed form

  ghost predicate LooksPast(now: nat, h: Handlers) {
    forall j: nat, score: nat {:trigger h(j, score)} :: score <= now ==> Later(now, h(j, score))
  }

  /** For handlers that read a clock: exactly those that re-arm with a delay, or at a later reading. */
  lemma LooksPastIff(now: uint32, h: Handlers)
    requires Clocked(now, h)
    ensures LooksPast(now, h) <==>
            forall j: nat, score: nat, r: Request {:trigger r in h(j, score)} ::
              score <= now && r in h(j, score) ==> 0 < r.mesc || now < r.clock
  {
    forall j: nat, score: nat, r: Request | score <= now && r in h(j, score)
      ensures now < r.Key() < U31 <==> 0 < r.mesc || now < r.clock
    {
      LaterIff(r, now);
    }
    if LooksPast(now, h) {
      forall j: nat, score: nat, r: Request | score <= now && r in h(j, score)
        ensures 0 < r.mesc || now < r.clock
      {
        assert Later(now, h(j, score));
      }
    }
  }

  /** What the handlers of the first `n` timers of `b` ask for, in order. */
  function Requests(b: Book, h: Handlers, n: nat): seq<Request>
    requires n <= |b.pending|
  {
    if n == 0 then [] else Requests(b, h, n - 1) + h(n - 1, b.pending[n - 1].score)
  }

  lemma {:induction false} RequestsLater(b: Book, now: nat, h: Handlers, n: nat)
    requires LooksPast(now, h) && n <= |b.pending| && forall i :: 0 <= i < n ==> b.pending[i].score <= now
    ensures Later(now, Requests(b, h, n))
  {
    if n > 0 {
      RequestsLater(b, now, h, n - 1);
    }
  }

  /** With the first `k` due timers gone and `rs` added, a pass takes the next and adds what it asks for. */
  lemma OnePastPass(b: Book, now: uint32, k: nat, rs: seq<Request>, more: seq<Request>)
    requires b.Sound() && k < Due(b, now) && Later(now, rs) && Later(now, more)
    ensures var c := Drop(b, k).AddAll(rs);
            && HeadDue(c, now) && c.pending[0] == b.pending[k]
            && Pass(c, more) == Drop(b, k + 1).AddAll(rs + more)
  {
    hide Pass, Rank;
    var c := Drop(b, k);
    DropSound(b, k);
    AddAllSound(c, rs);
    AddAllDrop(c, 1, rs);
    assert c.AddAll(rs).pending[..1][0] == c.pending[0];
    assert Drop(c, 1) == Drop(b, k + 1);
    assert Later(b.pending[k].score, more);
    PassIsDrop(c.AddAll(rs), more);
    AddAllConcat(Drop(b, k + 1), rs, more);
  }

  lemma PastRequests(b: Book, now: uint32, h: Handlers, k: nat)
    requires LooksPast(now, h) && k < Due(b, now)
    ensures k < |b.pending|
    ensures Later(now, Requests(b, h, k)) && Later(now, h(k, b.pending[k].score))
    ensures Requests(b, h, k + 1) == Requests(b, h, k) + h(k, b.pending[k].score)
  {
    RequestsLater(b, now, h, k);
  }

  /** Behind `k` passes that fired due timers comes another one, if there is another due timer. */
  lemma PassesExactStep(b: Book, now: uint32, h: Handlers, k: nat)
    requires b.Sound() && LooksPast(now, h) && k < Due(b, now)
    requires Passes(b, now, h, k) == Expiry(Drop(b, k).AddAll(Requests(b, h, k)), b.pending[..k])
    ensures Passes(b, now, h, k + 1) == Expiry(Drop(b, k + 1).AddAll(Requests(b, h, k + 1)), b.pending[..k + 1])
  {
    hide *;
    PastRequests(b, now, h, k);
    OnePastPass(b, now, k, Requests(b, h, k), h(k, b.pending[k].score));
    PassesNext(b, now, h, k);
    assert b.pending[..k + 1] == b.pending[..k] + [b.pending[k]];
  }

  lemma DropNone(b: Book, h: Handlers)
    ensures Drop(b, 0).AddAll(Requests(b, h, 0)) == b
  {
    assert b.pending[0..] == b.pending;
  }

  /** The state after `n` passes, as long as they fire what was due at the start. */
  lemma {:induction false} PassesExact(b: Book, now: uint32, h: Handlers, n: nat)
    requires b.Sound() && LooksPast(now, h) && n <= Due(b, now)
    ensures Passes(b, now, h, n) == Expiry(Drop(b, n).AddAll(Requests(b, h, n)), b.pending[..n])
  {
    hide *;
    if n == 0 {
      assert b.pending[..0] == [];
      PassesNone(b, now, h);
      DropNone(b, h);
    } else {
      PassesExact(b, now, h, n - 1);
      PassesExactStep(b, now, h, n - 1);
    }
  }

  /**
   The loop fires exactly the timers due when it started, in queue order and once each, and makes one
   pass for each; what remains is the rest of the queue with everything the handlers of these timers
   asked for added, in the order they asked.
   */
  lemma ExpireExact(b: Book, now: uint32, h: Handlers)
    requires b.Sound() && LooksPast(now, h)
    ensures Halts(b, now, h)
    ensures var n := Due(b, now);
            Expire(b, now, h) == Expiry(Drop(b, n).AddAll(Requests(b, h, n)), b.pending[..n])
  {
    var n := Due(b, now);
    PassesExact(b, now, h, n);
    RequestsLater(b, now, h, n);
    LaterRest(b, now);
    DueAfter(Drop(b, n), now, Requests(b, h, n));
    ExpireIs(b, now, h, n);
  }

  // ---- handlers that do not look ahead

  /** In order in the lower half and properly stamped, which additions under any keys keep. */
  ghost predicate Lined(b: Book) {
    Banded(b.pending) && StampsBelow(b.pending, b.Next())
  }

  lemma {:induction false} AddAllLined(b: Book, rs: seq<Request>)
    requires Lined(b)
    ensures Lined(b.AddAll(rs)) && forall t <- b.pending :: t in b.AddAll(rs).pending
    decreases rs
  {
    if rs != [] {
      var c := b.Add(rs[0]);
      InsertBanded(b.pending, b.NewTimer(rs[0]), rs[0].Key());
      InsertStamps(b, rs[0]);
      AddAllLined(c, rs[1..]);
      forall t <- b.pending
        ensures t in c.pending
      {
        var k := Rank(b.pending, rs[0].Key());
        assert b.pending == b.pending[..k] + b.pending[k..];
      }
    }
  }

  predicate HasEarly(rs: seq<Request>, score: nat) {
    exists r <- rs :: r.Key() <= score
  }

  /** A pass cannot remove a timer that it does not fire, nor one whose handler asks for something early. */
  lemma PassSpares(b: Book, rs: seq<Request>, t: Timer)
    requires Lined(b) && t in b.pending && (b.pending[0] == t ==> HasEarly(rs, t.score))
    ensures Lined(Pass(b, rs)) && t in Pass(b, rs).pending
  {
    hide Lined, HasEarly, Book.AddAll;
    var m := b.AddAll(rs);
    AddAllLined(b, rs);
    HeadElsewhere(b, rs, t);
    DropsHead(m, t);
  }

  /** After the handler such a timer is not the head. */
  lemma HeadElsewhere(b: Book, rs: seq<Request>, t: Timer)
    requires Lined(b) && t in b.pending && (b.pending[0] == t ==> HasEarly(rs, t.score))
    ensures b.AddAll(rs).pending[0] != t
  {
    AddAllHead(b, rs);
    HeadKeptIff(b, rs);
  }

  /** What deleting the head leaves. */
  lemma DropsHead(b: Book, t: Timer)
    requires Lined(b) && t in b.pending && b.pending[0] != t
    ensures var c := b.(pending := Remove(b.pending, b.pending[0].score));
            Lined(c) && t in c.pending
  {
    hide Banded, Rank, Remove;
    RemoveHead(b.pending);
    RemoveBanded(b.pending, b.pending[0].score);
    assert b.pending == [b.pending[0]] + b.pending[1..];
  }

  /** A due timer anywhere in the queue makes the head due. */
  lemma DueMakesHeadDue(b: Book, now: uint32, t: Timer)
    requires Lined(b) && t in b.pending && IsDue(t.score, now)
    ensures HeadDue(b, now)
  {
    var i :| 0 <= i < |b.pending| && b.pending[i] == t;
    assert i == 0 || Before(b.pending[0], b.pending[i]);
  }

  /** Whenever a timer with that score is fired, its handler asks for something due no later. */
  ghost predicate KeepsEarly(h: Handlers, score: nat) {
    forall j: nat {:trigger h(j, score)} :: HasEarly(h(j, score), score)
  }

  /**
   One due timer, anywhere in the queue, whose handler always asks for something early, among whatever
   else and under any keys, keeps the loop from ending: it is never removed.
   */
  lemma {:induction false} EarlyStays(b: Book, now: uint32, h: Handlers, t: Timer, n: nat)
    requires Lined(b) && t in b.pending && IsDue(t.score, now) && KeepsEarly(h, t.score)
    ensures var e := Passes(b, now, h, n);
            Lined(e.book) && t in e.book.pending && HeadDue(e.book, now) && |e.fired| == n
  {
    hide Passes, Pass, Lined, HasEarly, IsDue;
    if n == 0 {
      PassesNone(b, now, h);
    } else {
      var c := Passes(b, now, h, n - 1).book;
      EarlyStays(b, now, h, t, n - 1);
      PassesNext(b, now, h, n - 1);
      assert HasEarly(h(n - 1, t.score), t.score);
      PassSpares(c, h(n - 1, c.pending[0].score), t);
    }
    DueMakesHeadDue(Passes(b, now, h, n).book, now, t);
  }

  lemma EarlyNeverHalts(b: Book, now: uint32, h: Handlers, t: Timer)
    requires Lined(b) && t in b.pending && IsDue(t.score, now) && KeepsEarly(h, t.score)
    ensures !Halts(b, now, h)
  {
    forall n: nat
      ensures HeadDue(Passes(b, now, h, n).book, now)
    {
      EarlyStays(b, now, h, t, n);
    }
  }

  /** It does happen: a timer set for time 5, fired at 5 by a handler that re-arms at once with delay 0. */
  lemma RearmAtOnce()
    ensures var b := Book([], [], []).Add(Request(5, 0, 0, []));
            var h: Handlers := (_, _) => [Request(0, 5, 0, [])];
            b.Sound() && !Halts(b, 5, h) && forall n: nat :: |Passes(b, 5, h, n).fired| == n
  {
    var r, early := Request(5, 0, 0, []), Request(0, 5, 0, []);
    var b, h: Handlers := Book([], [], []).Add(r), (_, _) => [early];
    var t := Timer(1, 5, 0);
    assert r.Key() == 5 && b.pending == [t];
    assert early in [early] && early.Key() <= 5;
    EarlyNeverHalts(b, 5, h, t);
    forall n: nat
      ensures |Passes(b, 5, h, n).fired| == n
    {
      EarlyStays(b, 5, h, t, n);
    }
  }

  /**
   Handlers are taken to add timers only.  One that cancels the timer it is called for has the next one
   deleted in its stead, unfired: the cancellation and then the loop each remove a head.
   */
  lemma SelfCancelDropsNext(ts: seq<Timer>)
    requires |ts| >= 2
    ensures var m := Remove(ts, ts[0].score); m != [] && Remove(m, m[0].score) == ts[2..]
  {
    RemoveHead(ts);
    RemoveHead(ts[1..]);
    assert ts[1..][1..] == ts[2..];
  }

  // ---- exactly when the loop ends, for handlers that read a clock

  lemma ClockedFits(now: uint32, h: Handlers)
    requires Clocked(now, h)
    ensures HandlersFit(now, h)
  {
    forall j: nat, score: nat, r: Request | score <= now && r in h(j, score)
      ensures r.Key() < U31
    {
      LaterIff(r, now);
    }
  }

  /** How many of the requests are due at the reading `now` itself. */
  function AtOnce(rs: seq<Request>, now: nat): nat {
    if rs == [] then 0 else (if rs[0].Key() == now then 1 else 0) + AtOnce(rs[1..], now)
  }

  /** Requests due at `now` or after it. */
  ghost predicate NotBefore(now: nat, rs: seq<Request>) {
    forall r <- rs :: now <= r.Key() < U31
  }

  /** A request due at `now` makes one more timer due, a later one none. */
  lemma AddDue(b: Book, now: uint32, r: Request)
    requires b.Sound() && now <= r.Key() < U31
    ensures Due(b.Add(r), now) == Due(b, now) + if r.Key() == now then 1 else 0
  {
    var k, n, us := Rank(b.pending, r.Key()), Due(b, now), b.Add(r).pending;
    InsertIndex(b.pending, b.NewTimer(r), r.Key());
    RankSplits(b.pending, r.Key());
    RankSplits(b.pending, now + 1);
    if r.Key() == now {
      RankUnique(us, now + 1, n + 1);
    } else {
      RankUnique(us, now + 1, n);
    }
  }

  lemma {:induction false} AddAllDue(b: Book, now: uint32, rs: seq<Request>)
    requires b.Sound() && NotBefore(now, rs)
    ensures Due(b.AddAll(rs), now) == Due(b, now) + AtOnce(rs, now)
    decreases rs
  {
    if rs != [] {
      assert rs[0] in rs;
      AddDue(b, now, rs[0]);
      AddSound(b, rs[0]);
      AddAllDue(b.Add(rs[0]), now, rs[1..]);
    }
  }

  /** A pass takes one due timer away and adds those its handler asks for at once. */
  lemma PassDue(b: Book, now: uint32, rs: seq<Request>)
    requires b.Sound() && HeadDue(b, now) && NotBefore(now, rs)
    ensures Due(Pass(b, rs), now) == Due(b, now) + AtOnce(rs, now) - 1
  {
    var m := b.AddAll(rs);
    AddAllDue(b, now, rs);
    AddAllSound(b, rs);
    RemoveHead(m.pending);
    DueDrop(m, now);
  }

  /** The score of the timer fired in pass `j`: first those before `now` in order, then always `now`. */
  function ScoreAt(b: Book, now: nat, j: nat): nat {
    if j < Rank(b.pending, now) then b.pending[j].score else now
  }

  /** How many timers due at once the handlers of the first `n` passes ask for. */
  function Spawned(b: Book, now: nat, h: Handlers, n: nat): nat {
    if n == 0 then 0 else Spawned(b, now, h, n - 1) + AtOnce(h(n - 1, ScoreAt(b, now, n - 1)), now)
  }

  /** With handlers that read a clock nothing they ask for comes before `now`. */
  lemma ClockedNotBefore(now: uint32, h: Handlers, j: nat, score: nat)
    requires Clocked(now, h) && score <= now
    ensures NotBefore(now, h(j, score))
  {
    forall r <- h(j, score)
      ensures now <= r.Key() < U31
    {
      assert r.Key() == r.mesc + r.clock;
    }
  }

  /** While timers before `now` are left, the head is the next of them. */
  lemma {:induction false} EarlierInOrder(b: Book, now: uint32, h: Handlers, n: nat)
    requires b.Sound() && Clocked(now, h) && n <= Rank(b.pending, now)
    ensures var c, k := Passes(b, now, h, n).book, Rank(b.pending, now);
            c.Sound() && Rank(c.pending, now) == k - n && k - n <= |c.pending| && c.pending[..k - n] == b.pending[n..k]
  {
    hide Passes, Pass, Rank;
    var k := Rank(b.pending, now);
    if n == 0 {
      PassesNone(b, now, h);
    } else {
      var c := Passes(b, now, h, n - 1).book;
      EarlierInOrder(b, now, h, n - 1);
      assert c.pending[..k - n + 1][0] == c.pending[0] == b.pending[n - 1];
      PassesNext(b, now, h, n - 1);
      ClockedNotBefore(now, h, n - 1, c.pending[0].score);
      EarlierPass(c, now, h(n - 1, c.pending[0].score));
      assert b.pending[n - 1..k][1..] == b.pending[n..k];
    }
  }

  /** A pass that fires a timer before `now` leaves the others before `now` as they are. */
  lemma EarlierPass(b: Book, now: uint32, rs: seq<Request>)
    requires b.Sound() && 0 < Rank(b.pending, now) && NotBefore(now, rs)
    ensures var k, c := Rank(b.pending, now), Pass(b, rs);
            && c.Sound() && Rank(c.pending, now) == k - 1
            && c.pending[..k - 1] == b.pending[..k][1..]
  {
    hide Pass, Rank;
    assert Later(b.pending[0].score, rs);
    PassIsDrop(b, rs);
    RankDrop(b.pending, 1, now);
    DropSound(b, 1);
    EarlierKept(Drop(b, 1), now, rs);
  }

  /** What is asked for later leaves the timers before `now` as they are. */
  lemma EarlierKept(b: Book, now: uint32, rs: seq<Request>)
    requires b.Sound() && NotBefore(now, rs)
    ensures var k, c := Rank(b.pending, now), b.AddAll(rs);
            Rank(c.pending, now) == k && c.pending[..k] == b.pending[..k]
  {
    hide Rank;
    var k, c := Rank(b.pending, now), b.AddAll(rs);
    RankSplits(b.pending, now);
    AddAllDrop(b, k, rs);
    AllFrom(Drop(b, k), now, rs);
    assert forall i :: 0 <= i < k ==> c.pending[i] == c.pending[..k][i];
    assert k < |c.pending| ==> c.pending[k] == Drop(c, k).pending[0];
    RankUnique(c.pending, now, k);
  }

  /** If nothing pending or asked for is before `now`, nothing is afterwards. */
  lemma {:induction false} AllFrom(b: Book, now: nat, rs: seq<Request>)
    requires NotBefore(now, rs) && forall t <- b.pending :: now <= t.score
    ensures forall t <- b.AddAll(rs).pending :: now <= t.score
    decreases rs
  {
    if rs != [] {
      assert rs[0] in rs;
      forall t <- b.Add(rs[0]).pending
        ensures now <= t.score
      {
        assert t in b.pending || t == b.NewTimer(rs[0]);
      }
      AllFrom(b.Add(rs[0]), now, rs[1..]);
    }
  }

  /** Afterwards nothing before `now` is left or comes in. */
  lemma {:induction false} NoneEarlier(b: Book, now: uint32, h: Handlers, n: nat)
    requires b.Sound() && Clocked(now, h) && Rank(b.pending, now) <= n
    ensures forall t <- Passes(b, now, h, n).book.pending :: now <= t.score
    decreases n
  {
    hide Passes, Rank;
    if n == Rank(b.pending, now) {
      EarlierInOrder(b, now, h, n);
      RankSplits(Passes(b, now, h, n).book.pending, now);
    } else {
      var c := Passes(b, now, h, n - 1).book;
      NoneEarlier(b, now, h, n - 1);
      if HeadDue(c, now) {
        PassesNext(b, now, h, n - 1);
        ClockedNotBefore(now, h, n - 1, c.pending[0].score);
        AllFrom(c, now, h(n - 1, c.pending[0].score));
        RemoveHead(c.AddAll(h(n - 1, c.pending[0].score)).pending);
      } else {
        PassesStay(b, now, h, n - 1, n);
      }
    }
  }

  /** The timer fired in pass `n` has the score foreseen. */
  lemma FiresAt(b: Book, now: uint32, h: Handlers, n: nat)
    requires b.Sound() && Clocked(now, h) && HeadDue(Passes(b, now, h, n).book, now)
    ensures Passes(b, now, h, n).book.pending[0].score == ScoreAt(b, now, n) <= now
  {
    hide Passes, Rank;
    var c, k := Passes(b, now, h, n).book, Rank(b.pending, now);
    if n < k {
      EarlierInOrder(b, now, h, n);
      assert c.pending[..k - n][0] == b.pending[n..k][0];
    } else {
      NoneEarlier(b, now, h, n);
      assert c.pending[0] in c.pending;
    }
  }

  /** While the loop goes on: what was due, and what came in due, less one for each pass. */
  lemma {:induction false} PassesDue(b: Book, now: uint32, h: Handlers, n: nat)
    requires b.Sound() && Clocked(now, h) && (n == 0 || HeadDue(Passes(b, now, h, n - 1).book, now))
    ensures Due(Passes(b, now, h, n).book, now) + n == Due(b, now) + Spawned(b, now, h, n)
  {
    hide Passes, Pass, Rank, ScoreAt, Due;
    if n == 0 {
      PassesNone(b, now, h);
    } else {
      var c := Passes(b, now, h, n - 1).book;
      if n > 1 && !HeadDue(Passes(b, now, h, n - 2).book, now) {
        PassesStay(b, now, h, n - 2, n - 1);
      }
      PassesDue(b, now, h, n - 1);
      FiresAt(b, now, h, n - 1);
      ClockedFits(now, h);
      PassesSound(b, now, h, n - 1);
      ClockedNotBefore(now, h, n - 1, c.pending[0].score);
      PassesNext(b, now, h, n - 1);
      PassDue(c, now, h(n - 1, c.pending[0].score));
    }
  }

  lemma HeadDueIff(b: Book, now: uint32)
    requires b.Sound()
    ensures HeadDue(b, now) <==> 0 < Due(b, now)
  {
  }

  lemma {:induction false} FirstEnd(b: Book, now: uint32, h: Handlers, n: nat) returns (m: nat)
    requires !HeadDue(Passes(b, now, h, n).book, now)
    ensures !HeadDue(Passes(b, now, h, m).book, now)
    ensures m == 0 || HeadDue(Passes(b, now, h, m - 1).book, now)
  {
    hide Passes;
    if n == 0 || HeadDue(Passes(b, now, h, n - 1).book, now) {
      m := n;
    } else {
      m := FirstEnd(b, now, h, n - 1);
    }
  }

  lemma {:induction false} FiredCount(b: Book, now: uint32, h: Handlers, n: nat)
    requires n == 0 || HeadDue(Passes(b, now, h, n - 1).book, now)
    ensures |Passes(b, now, h, n).fired| == n
  {
    if n > 0 {
      FiredCount(b, now, h, n - 1);
    }
  }

  /**
   Exactly when the loop ends, for handlers that read a clock that does not run backwards, whatever
   they ask for: when some number of passes has caught up with the timers due at the start and those
   asked for, meanwhile, at the very reading `now`.  It fires exactly that many timers.
   */
  lemma EndsIff(b: Book, now: uint32, h: Handlers)
    requires b.Sound() && Clocked(now, h)
    ensures Halts(b, now, h) <==> exists n: nat :: Due(b, now) + Spawned(b, now, h, n) <= n
    ensures Halts(b, now, h) ==>
              var n := |Expire(b, now, h).fired|; Due(b, now) + Spawned(b, now, h, n) == n
  {
    hide Passes, Spawned, Due;
    ClockedFits(now, h);
    if Halts(b, now, h) {
      var n := ExpireAfter(b, now, h);
      var m := FirstEnd(b, now, h, n);
      PassesDue(b, now, h, m);
      FiredCount(b, now, h, m);
      ExpireIs(b, now, h, m);
      PassesSound(b, now, h, m);
      HeadDueIff(Passes(b, now, h, m).book, now);
    } else if n: nat :| Due(b, now) + Spawned(b, now, h, n) <= n {
      assert n > 0 ==> HeadDue(Passes(b, now, h, n - 1).book, now);
      PassesDue(b, now, h, n);
      PassesSound(b, now, h, n);
      HeadDueIff(Passes(b, now, h, n).book, now);
    }
  }

  // ---- handlers that do the same every time

  /** What a handler asks for depends on the score of its timer alone. */
  ghost predicate Steady(h: Handlers) {
    forall j: nat, score: nat {:trigger h(j, score)} :: h(j, score) == h(0, score)
  }

  /** The handler of a timer with that score re-arms with delay 0 at the reading the expiry began with. */
  predicate Rearms(h: Handlers, score: nat, now: nat) {
    exists r <- h(0, score) :: r.mesc == 0 && r.clock == now
  }

  lemma {:induction false} AtOnceIff(rs: seq<Request>, now: nat)
    ensures 0 < AtOnce(rs, now) <==> exists r <- rs :: r.Key() == now
  {
    if rs != [] {
      AtOnceIff(rs[1..], now);
      assert forall r <- rs :: r == rs[0] || r in rs[1..];
    }
  }

  lemma RearmsIff(now: uint32, h: Handlers, j: nat, score: nat)
    requires Clocked(now, h) && Steady(h) && score <= now
    ensures Rearms(h, score, now) <==> 0 < AtOnce(h(j, score), now)
  {
    AtOnceIff(h(j, score), now);
    forall r <- h(0, score)
      ensures r.Key() == now <==> r.mesc == 0 && r.clock == now
    {
      assert r.Key() == r.mesc + r.clock;
    }
  }

  /** Some due timer re-arms at once and is fired at `now`, or makes a timer that is. */
  ghost predicate Loops(b: Book, now: nat, h: Handlers) {
    && Rearms(h, now, now)
    && exists t <- b.pending :: t.score == now || (t.score < now && Rearms(h, t.score, now))
  }

  /** Nothing comes in at once if nobody re-arms... */
  lemma {:induction false} SpawnedNone(b: Book, now: uint32, h: Handlers, n: nat)
    requires Clocked(now, h) && Steady(h) && n <= Rank(b.pending, now)
    requires forall i :: 0 <= i < n ==> !Rearms(h, b.pending[i].score, now)
    ensures Spawned(b, now, h, n) == 0
  {
    hide Rearms, Rank;
    if n > 0 {
      SpawnedNone(b, now, h, n - 1);
      RearmsIff(now, h, n - 1, b.pending[n - 1].score);
    }
  }

  /** ... or something if one does... */
  lemma {:induction false} SpawnedSome(b: Book, now: uint32, h: Handlers, n: nat, i: nat)
    requires Clocked(now, h) && Steady(h) && i < n <= Rank(b.pending, now)
    requires Rearms(h, b.pending[i].score, now)
    ensures 0 < Spawned(b, now, h, n)
  {
    hide Rearms, Rank;
    if i == n - 1 {
      RearmsIff(now, h, i, b.pending[i].score);
    } else {
      SpawnedSome(b, now, h, n - 1, i);
    }
  }

  /** ... and from then on in every pass, or in none. */
  lemma {:induction false} SpawnedOn(b: Book, now: uint32, h: Handlers, k: nat, n: nat)
    requires Clocked(now, h) && Steady(h) && k == Rank(b.pending, now) <= n
    ensures if Rearms(h, now, now) then Spawned(b, now, h, n) >= Spawned(b, now, h, k) + (n - k)
            else Spawned(b, now, h, n) == Spawned(b, now, h, k)
    decreases n
  {
    hide Rearms, Rank;
    if k < n {
      SpawnedOn(b, now, h, k, n - 1);
      RearmsIff(now, h, n - 1, now);
    }
  }

  /** The passes never catch up if a timer re-arms at once whenever the clock reads `now`. */
  lemma LoopsNeverCaughtUp(b: Book, now: uint32, h: Handlers, n: nat)
    requires b.Sound() && Clocked(now, h) && Steady(h) && Loops(b, now, h)
    ensures n < Due(b, now) + Spawned(b, now, h, n)
  {
    hide Rearms, Spawned;
    var k := Rank(b.pending, now);
    RankSplits(b.pending, now);
    RankSplits(b.pending, now + 1);
    var i :| 0 <= i < |b.pending| &&
             (b.pending[i].score == now || (b.pending[i].score < now && Rearms(h, b.pending[i].score, now)));
    if b.pending[i].score < now {
      SpawnedSome(b, now, h, k, i);
    }
    if k <= n {
      SpawnedOn(b, now, h, k, n);
    }
    RankGrows(b.pending, now);
  }

  lemma RankGrows(ts: seq<Timer>, now: nat)
    ensures Rank(ts, now) <= Rank(ts, now + 1)
  {
  }

  lemma CaughtUp(b: Book, now: uint32, h: Handlers) returns (n: nat)
    requires b.Sound() && Clocked(now, h) && Steady(h) && !Loops(b, now, h)
    ensures Due(b, now) + Spawned(b, now, h, n) <= n
  {
    hide Rearms, Spawned;
    var k := Rank(b.pending, now);
    RankSplits(b.pending, now);
    RankSplits(b.pending, now + 1);
    if Rearms(h, now, now) {
      n := k;
      forall i | 0 <= i < k
        ensures !Rearms(h, b.pending[i].score, now)
      {
        assert b.pending[i] in b.pending;
      }
      SpawnedNone(b, now, h, k);
      assert k < |b.pending| ==> b.pending[k] in b.pending;
      RankUnique(b.pending, now + 1, k);
    } else {
      n := Due(b, now) + Spawned(b, now, h, k) + k;
      SpawnedOn(b, now, h, k, n);
    }
  }

  /**
   For such handlers, reading a clock: the loop ends unless handlers of timers with the score `now`
   re-arm with delay 0 at the reading `now`, and there is one, or one comes in because an earlier timer
   re-arms so as well.
   */
  lemma SteadyEndsIff(b: Book, now: uint32, h: Handlers)
    requires b.Sound() && Clocked(now, h) && Steady(h)
    ensures Halts(b, now, h) <==>
            !(Rearms(h, now, now) &&
              exists t <- b.pending :: t.score == now || (t.score < now && Rearms(h, t.score, now)))
  {
    EndsIff(b, now, h);
    if Loops(b, now, h) {
      forall n: nat
        ensures !(Due(b, now) + Spawned(b, now, h, n) <= n)
      {
        LoopsNeverCaughtUp(b, now, h, n);
      }
    } else {
      var n := CaughtUp(b, now, h);
    }
  }

  function ArmOnce(j: nat, score: nat): seq<Request> {
    if j == 0 then [Request(0, 5, 0, [])] else []
  }

  /** Re-arming at once does no lasting harm if it stops: the first firing re-arms, the second does not. */
  lemma RearmOnceEnds()
    ensures var b := Book([], [], []).Add(Request(5, 0, 0, []));
            Halts(b, 5, ArmOnce) && |Expire(b, 5, ArmOnce).fired| == 2 && !LooksAhead(5, ArmOnce)
  {
    var b := Book([], [], []).Add(Request(5, 0, 0, []));
    assert Request(5, 0, 0, []).Key() == 5 && b.pending == [Timer(1, 5, 0)];
    assert Request(0, 5, 0, []) in ArmOnce(0, 5);
    ArmOnceSpawns(b);
    EndsIff(b, 5, ArmOnce);
    assert Due(b, 5) + Spawned(b, 5, ArmOnce, 2) <= 2;
  }

  lemma ArmOnceSpawns(b: Book)
    requires b.pending == [Timer(1, 5, 0)]
    ensures Due(b, 5) == 1 && Spawned(b, 5, ArmOnce, 0) == 0 && Clocked(5, ArmOnce)
    ensures forall n: nat :: n > 0 ==> Spawned(b, 5, ArmOnce, n) == 1
  {
    RankUnique(b.pending, 5, 0);
    RankUnique(b.pending, 6, 1);
    assert Request(0, 5, 0, []).Key() == 5;
    assert AtOnce(ArmOnce(0, 5), 5) == 1;
    forall n: nat | n > 0
      ensures Spawned(b, 5, ArmOnce, n) == 1
    {
      ArmOnceSum(b, n);
    }
  }

  lemma {:induction false} ArmOnceSum(b: Book, n: nat)
    requires Rank(b.pending, 5) == 0 && AtOnce(ArmOnce(0, 5), 5) == 1 && n > 0
    ensures Spawned(b, 5, ArmOnce, n) == 1
  {
    if n > 1 {
      ArmOnceSum(b, n - 1);
    } else {
      assert Spawned(b, 5, ArmOnce, 0) == 0;
    }
  }

  // ---- never early: firings against what was asked for

  /** Timers are those that were asked for, in order, and nothing else is pending. */
  ghost predicate Recorded(b: Book) {
    && |b.added| == |b.asked|
    && (forall i :: 0 <= i < |b.added| ==>
          b.added[i] == Timer(i + 1, Stored(b.asked[i].Key()), b.asked[i].handler))
    && forall t <- b.pending :: t in b.added
  }

  /**
   `x` is the timer of one of the requests, and at `now` the time this asked for has come, unless delay
   and clock added up to 2^32 or more.
   */
  ghost predicate Timely(asked: seq<Request>, x: Timer, now: nat) {
    && 1 <= x.stamp <= |asked|
    && var r := asked[x.stamp - 1];
       && x == Timer(x.stamp, Stored(r.Key()), r.handler)
       && (r.mesc + r.clock <= now <==> r.mesc + r.clock < U32)
  }

  /** A timer that is due was asked for by now exactly if its deadline did not wrap. */
  lemma DueTimely(r: Request, now: uint32)
    requires IsDue(Stored(r.Key()), now)
    ensures r.mesc + r.clock <= now <==> r.mesc + r.clock < U32
  {
    var sum := r.mesc + r.clock;
    assert sum < U32 ==> r.Key() == sum;
  }

  lemma AddRecorded(b: Book, r: Request)
    requires Recorded(b)
    ensures Recorded(b.Add(r))
  {
    var c, k := b.Add(r), Rank(b.pending, r.Key());
    forall t <- c.pending
      ensures t in c.added
    {
      assert t in b.pending || t == b.NewTimer(r);
      assert c.added[|b.added|] == b.NewTimer(r);
    }
  }

  lemma {:induction false} AddAllRecorded(b: Book, rs: seq<Request>)
    requires Recorded(b)
    ensures Recorded(b.AddAll(rs)) && b.asked <= b.AddAll(rs).asked
    decreases rs
  {
    if rs != [] {
      AddRecorded(b, rs[0]);
      AddAllRecorded(b.Add(rs[0]), rs[1..]);
    }
  }

  lemma PassRecorded(b: Book, rs: seq<Request>)
    requires Recorded(b) && b.pending != []
    ensures Recorded(Pass(b, rs)) && b.asked <= Pass(b, rs).asked
  {
    var m := b.AddAll(rs);
    AddAllRecorded(b, rs);
    RemoveHead(m.pending);
  }

  lemma HeadTimely(b: Book, now: uint32)
    requires Recorded(b) && HeadDue(b, now)
    ensures Timely(b.asked, b.pending[0], now)
  {
    assert b.pending[0] in b.added;
    var i :| 0 <= i < |b.added| && b.added[i] == b.pending[0];
    DueTimely(b.asked[i], now);
  }

  lemma TimelyGrows(asked: seq<Request>, more: seq<Request>, x: Timer, now: nat)
    requires Timely(asked, x, now) && asked <= more
    ensures Timely(more, x, now)
  {
  }

  /**
   However long the loop runs, whether it ends or not and whatever the handlers do: nothing fires
   before the time asked for, unless that time wrapped.
   */
  lemma {:induction false} PassesTimely(b: Book, now: uint32, h: Handlers, n: nat)
    requires Recorded(b)
    ensures var e := Passes(b, now, h, n);
            && Recorded(e.book) && b.asked <= e.book.asked
            && forall x <- e.fired :: Timely(e.book.asked, x, now)
  {
    hide Passes, Pass, Timely, Recorded;
    if n == 0 {
      PassesNone(b, now, h);
    } else {
      var e := Passes(b, now, h, n - 1);
      PassesTimely(b, now, h, n - 1);
      if HeadDue(e.book, now) {
        var rs := h(n - 1, e.book.pending[0].score);
        PassesNext(b, now, h, n - 1);
        PassRecorded(e.book, rs);
        HeadTimely(e.book, now);
        forall x <- e.fired + [e.book.pending[0]]
          ensures Timely(Pass(e.book, rs).asked, x, now)
        {
          TimelyGrows(e.book.asked, Pass(e.book, rs).asked, x, now);
        }
      } else {
        PassesStay(b, now, h, n - 1, n);
      }
    }
  }

  /** What the handlers of the timers fired ask for, in the order of firing. */
  function AskedBy(h: Handlers, fired: seq<Timer>): seq<Request> {
    if fired == [] then []
    else
      var j := |fired| - 1;
      AskedBy(h, fired[..j]) + h(j, fired[j].score)
  }

  lemma {:induction false} AddAllAsked(b: Book, rs: seq<Request>)
    ensures b.AddAll(rs).asked == b.asked + rs
    decreases rs
  {
    if rs != [] {
      AddAllAsked(b.Add(rs[0]), rs[1..]);
      assert b.asked + [rs[0]] + rs[1..] == b.asked + rs;
    } else {
      assert b.asked + rs == b.asked;
    }
  }

  /** The loop adds what the handlers of the timers it fires ask for, and nothing else. */
  lemma {:induction false} PassesAsked(b: Book, now: uint32, h: Handlers, n: nat)
    ensures var e := Passes(b, now, h, n);
            |e.fired| <= n && e.book.asked == b.asked + AskedBy(h, e.fired)
    ensures n == 0 || HeadDue(Passes(b, now, h, n - 1).book, now) ==> |Passes(b, now, h, n).fired| == n
  {
    hide Passes, Pass;
    if n == 0 {
      PassesNone(b, now, h);
    } else {
      var e := Passes(b, now, h, n - 1);
      PassesAsked(b, now, h, n - 1);
      if HeadDue(e.book, now) {
        var x := e.book.pending[0];
        FiredCount(b, now, h, n);
        PassesNext(b, now, h, n - 1);
        PassAsked(e.book, h(n - 1, x.score));
        assert (e.fired + [x])[..|e.fired|] == e.fired;
        assert b.asked + AskedBy(h, e.fired) + h(n - 1, x.score) == b.asked + (AskedBy(h, e.fired) + h(n - 1, x.score));
      } else {
        PassesStay(b, now, h, n - 1, n);
      }
    }
  }

  lemma PassAsked(b: Book, rs: seq<Request>)
    requires b.pending != []
    ensures Pass(b, rs).asked == b.asked + rs
  {
    AddAllAsked(b, rs);
  }

  /** It does happen: a timer asked for at 10 with a delay just below 2^32 fires in an expiry at 10. */
  lemma WrapFiresEarly()
    ensures var b := Book([], [], []).Add(Request(U32 - 5, 10, 0, []));
            var e := Passes(b, 10, (_, _) => [], 1);
            e.fired == [Timer(1, 5, 0)] && e.book.asked == [Request(U32 - 5, 10, 0, [])]
  {
    var r := Request(U32 - 5, 10, 0, []);
    var b, h: Handlers := Book([], [], []).Add(r), (_, _) => [];
    assert r.Key() == 5 && b.pending == [Timer(1, 5, 0)];
    PassesNone(b, 10, h);
    PassesNext(b, 10, h, 0);
  }
}
