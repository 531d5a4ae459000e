/** What the synchroniser promises, proved about its specification in
    `SyncSpec`: how each message moves the watermark, queue and book of its
    product and leaves every other product alone, that messages already
    covered by a snapshot are skipped and the following ones applied in
    order, and that a landed snapshot leaves the queue empty. */
module SyncProperties {
  import opened Wrappers
  import opened OrderbookSpec
  import opened SyncSpec

  // ------------------------------------------------------- subscriptions

  /** `_newProduct` over a list: every listed product starts afresh, every
      other product keeps its entry, and no request is issued. */
  lemma {:induction false} NewProductsSpec(s: Sync, ps: seq<ProductId>, x: ProductId)
    ensures var r := NewProducts(s, ps);
            && (x in r.products <==> x in s.products || x in ps)
            && r.fetches == s.fetches
            && (x in ps ==> r.products[x] == Tracked(Unloaded, [], Empty))
            && (x !in ps && x in s.products ==> r.products[x] == s.products[x])
    decreases |ps|
  {
    if ps != [] {
      NewProductsSpec(NewProduct(s, ps[0]), ps[1..], x);
      assert x in ps <==> x == ps[0] || x in ps[1..];
    }
  }

  /** A subscriptions message starts tracking exactly the products of its
      full channel that were not tracked, each with watermark -2, an empty
      queue and an empty book, and changes nothing about the products
      already tracked. */
  lemma SubscriptionSpec(s: Sync, cs: seq<Channel>, x: ProductId)
    ensures var r, c := NewSubscription(s, cs), FullChannel(cs);
            && r.fetches == s.fetches
            && (x in s.products ==> x in r.products && r.products[x] == s.products[x])
            && (x !in s.products ==> (x in r.products <==> c.Some? && x in c.value.productIds))
            && (x !in s.products && x in r.products ==> r.products[x] == Tracked(Unloaded, [], Empty))
  {
    var c := FullChannel(cs);
    if c.Some? {
      NewProductsSpec(s, Untracked(s.products.Keys, c.value.productIds), x);
    }
  }

  /** Without a full channel a subscriptions message changes nothing. */
  lemma NoFullChannel(s: Sync, cs: seq<Channel>)
    requires forall i :: 0 <= i < |cs| ==> cs[i].name != "full"
    ensures NewSubscription(s, cs) == s
  {
  }

  // ----------------------------------------------------------- messages

  /** A message of a product that is not tracked changes nothing. */
  lemma StepUntracked(s: Sync, m: Message)
    requires Consistent(s) && m.Feed? && m.productId !in s.products
    ensures Step(s, m) == Run(s, false)
  {
  }

  /** The first message of a product starts its first load: the message is
      queued and discarded with the queue at once, the watermark becomes
      -1 and a snapshot is requested. */
  lemma StepFirst(s: Sync, m: Message)
    requires Consistent(s) && m.Feed? && m.productId in s.products
    requires s.products[m.productId].sequence == Unloaded
    ensures var p := m.productId;
            Step(s, m) == Run(Sync(s.products[p := s.products[p].(sequence := Resyncing, queue := [])],
                                   s.fetches + multiset{p}), false)
  {
  }

  /** While a snapshot is awaited every message of the product is queued,
      in arrival order, and nothing else changes. */
  lemma StepResyncing(s: Sync, m: Message)
    requires Consistent(s) && m.Feed? && m.productId in s.products
    requires s.products[m.productId].sequence == Resyncing
    ensures var p := m.productId;
            Step(s, m) == Run(s.(products := s.products[p := s.products[p].(queue := s.products[p].queue + [m])]), false)
  {
  }

  /** A message at or below the watermark was already applied and is
      skipped. */
  lemma StepStale(s: Sync, m: Message)
    requires Consistent(s) && m.Feed? && m.productId in s.products
    requires 0 <= s.products[m.productId].sequence && m.sequence <= s.products[m.productId].sequence
    ensures Step(s, m) == Run(s, false)
  {
  }

  /** A message beyond the next sequence number reveals a dropped message:
      the queue is emptied, the watermark becomes -1, a snapshot is
      requested, and the book is left as it was. */
  lemma StepGap(s: Sync, m: Message)
    requires Consistent(s) && m.Feed? && m.productId in s.products
    requires 0 <= s.products[m.productId].sequence && m.sequence > s.products[m.productId].sequence + 1
    ensures var p := m.productId;
            Step(s, m) == Run(Sync(s.products[p := s.products[p].(sequence := Resyncing, queue := [])],
                                   s.fetches + multiset{p}), false)
  {
  }

  /** The next message in sequence moves the watermark to its sequence
      number and is applied to the book; it fails exactly when the book's
      operation throws, and then the book is left as it was. */
  lemma StepNext(s: Sync, m: Message)
    requires Consistent(s) && m.Feed? && m.productId in s.products
    requires 0 <= s.products[m.productId].sequence && m.sequence == s.products[m.productId].sequence + 1
    ensures var p := m.productId;
            var t := s.products[p];
            var a := Apply(BookOf(s, p), m.event);
            var r := Step(s, m);
            && r.failed == a.AssertionError?
            && r.state == Advanced(s, p, m.sequence, if a.Ok? then a.value else t.book)
  {
  }

  /** A message concerns one product only: every other product keeps its
      entry and its requests. */
  lemma StepIsolation(s: Sync, m: Message, x: ProductId)
    requires Consistent(s) && m.Feed? && x != m.productId
    ensures var r := Step(s, m).state;
            && (x in r.products <==> x in s.products)
            && (x in s.products ==> r.products[x] == s.products[x])
            && r.fetches[x] == s.fetches[x]
  {
  }

  /** The watermark only moves up by exactly one, or to -1 for a resync;
      the book changes, and a failure happens, only when it moves up by
      one. */
  lemma WatermarkMoves(s: Sync, m: Message)
    requires Consistent(s) && m.Feed? && m.productId in s.products
    ensures var p, r := m.productId, Step(s, m);
            var before := s.products[p];
            p in r.state.products &&
            var after := r.state.products[p];
            && (after.sequence == before.sequence || after.sequence == Resyncing
                || (0 <= before.sequence && after.sequence == before.sequence + 1))
            && (after.book != before.book || r.failed ==>
                  0 <= before.sequence && after.sequence == before.sequence + 1)
  {
  }

  // ------------------------------------------------------------- replay

  /** The book after applying `es` directly, in order: the reference the
      replay of a queue is compared with. */
  function ApplyAll(b: Book, es: seq<Event>): (r: Outcome<Book>)
    requires WellFormed(b)
    ensures r.Ok? ==> WellFormed(r.value)
    decreases |es|
  {
    if es == [] then Ok(b)
    else
      var a := Apply(b, es[0]);
      if a.AssertionError? then AssertionError else ApplyAll(a.value, es[1..])
  }

  /** `q` carries the events `es` of product `p` under the sequence
      numbers following `from`, without a gap. */
  predicate Contiguous(q: seq<Message>, p: ProductId, from: nat, es: seq<Event>)
    decreases |q|
  {
    && |q| == |es|
    && (q != [] ==> q[0] == Feed(p, from + 1, es[0]) && Contiguous(q[1..], p, from + 1, es[1..]))
  }

  /** Every message of `q` is of product `p` and numbered at most `upTo`. */
  predicate Covered(q: seq<Message>, p: ProductId, upTo: nat)
  {
    forall i :: 0 <= i < |q| ==> q[i].Feed? && q[i].productId == p && q[i].sequence <= upTo
  }

  /** Replaying a concatenation replays the first part, then (unless it
      failed) the second from where the first left off. */
  lemma {:induction false} ReplayAppend(s: Sync, q1: seq<Message>, q2: seq<Message>)
    requires Consistent(s)
    ensures var r := Replay(s, q1);
            Replay(s, q1 + q2) == if r.failed then r else Replay(r.state, q2)
    decreases |q1|
  {
    if q1 == [] {
      assert q1 + q2 == q2;
    } else {
      StepConsistent(s, q1[0]);
      assert (q1 + q2)[0] == q1[0] && (q1 + q2)[1..] == q1[1..] + q2;
      if !Step(s, q1[0]).failed {
        ReplayAppend(Step(s, q1[0]).state, q1[1..], q2);
      }
    }
  }

  /** A replay of two queues whose first ends in `x` without a throw goes
      on from `x`. */
  lemma ReplayThen(s: Sync, q1: seq<Message>, q2: seq<Message>, x: Sync)
    requires Consistent(s) && Replay(s, q1) == Run(x, false)
    ensures Consistent(x) && Replay(s, q1 + q2) == Replay(x, q2)
  {
    ReplayAppend(s, q1, q2);
  }

  /** Messages the watermark already covers are all skipped. */
  lemma {:induction false} ReplayStale(s: Sync, q: seq<Message>, p: ProductId)
    requires Consistent(s) && p in s.products && 0 <= s.products[p].sequence
    requires Covered(q, p, s.products[p].sequence)
    ensures Replay(s, q) == Run(s, false)
    decreases |q|
  {
    if q != [] {
      StepStale(s, q[0]);
      assert Covered(q[1..], p, s.products[p].sequence) by {
        forall i | 0 <= i < |q[1..]| ensures q[1..][i] == q[i + 1] { }
      }
      ReplayStale(s, q[1..], p);
    }
  }

  /** Two advances of the same product make one. */
  lemma AdvancedTwice(s: Sync, p: ProductId, n: int, m: int, b: Book, c: Book)
    requires p in s.products
    ensures Advanced(Advanced(s, p, n, b), p, m, c) == Advanced(s, p, m, c)
  {
  }

  /** The replay of a queue whose first message is the next in sequence
      and applies cleanly continues from the state that message leaves. */
  lemma ReplayNext(s: Sync, q: seq<Message>, p: ProductId, e: Event, b: Book)
    requires Consistent(s) && p in s.products && 0 <= s.products[p].sequence
    requires q != [] && q[0] == Feed(p, s.products[p].sequence + 1, e)
    requires Apply(BookOf(s, p), e) == Ok(b)
    ensures var s1 := Advanced(s, p, s.products[p].sequence + 1, b);
            Consistent(s1) && Replay(s, q) == Replay(s1, q[1..])
  {
    StepNext(s, q[0]);
    StepConsistent(s, q[0]);
  }

  /** Messages following the watermark without a gap are applied in
      order: the book ends as applying their events directly leaves it, and
      the watermark at the last one's number. */
  lemma {:induction false} ReplayContiguous(s: Sync, q: seq<Message>, p: ProductId, es: seq<Event>,
                                             b: Book, n: int)
    requires Consistent(s) && p in s.products && 0 <= s.products[p].sequence
    requires Contiguous(q, p, s.products[p].sequence, es)
    requires ApplyAll(BookOf(s, p), es) == Ok(b) && n == s.products[p].sequence + |q|
    ensures Replay(s, q) == Run(Advanced(s, p, n, b), false)
    decreases |q|
  {
    if q == [] {
      var t := s.products[p];
      assert b == t.book;
      assert t.(sequence := t.sequence, book := b) == t;
      assert s.products[p := t] == s.products;
      assert Replay(s, q) == Run(s, false);
    } else {
      var k := s.products[p].sequence + 1;
      var c := Apply(BookOf(s, p), es[0]).value;
      assert ApplyAll(c, es[1..]) == Ok(b);
      ReplayNext(s, q, p, es[0], c);
      var s1 := Advanced(s, p, k, c);
      assert s1.products[p].sequence == k && s1.products[p].book == c;
      ReplayContiguous(s1, q[1..], p, es[1..], b, n);
      AdvancedTwice(s, p, k, n, c, b);
    }
  }

  /** A product that is resyncing stays so under any number of its own
      messages, which are only queued: once its snapshot request has
      failed, only a new request could bring it back, and none is made. */
  lemma {:induction false} ResyncStuck(s: Sync, q: seq<Message>, p: ProductId, qs: seq<Message>)
    requires Consistent(s) && p in s.products && s.products[p].sequence == Resyncing
    requires forall i :: 0 <= i < |q| ==> q[i].Feed? && q[i].productId == p
    requires qs == s.products[p].queue + q
    ensures Replay(s, q) == Run(s.(products := s.products[p := s.products[p].(queue := qs)]), false)
    decreases |q|
  {
    var t := s.products[p];
    if q == [] {
      assert t.(queue := qs) == t;
      assert s.products[p := t] == s.products;
    } else {
      ReplayQueued(s, q, p);
      var s1 := Pushed(s, p, q[0]);
      assert s1.products[p].queue == t.queue + [q[0]];
      AppendFirst(t.queue, q);
      ResyncStuck(s1, q[1..], p, qs);
      assert s1.products[p].(queue := qs) == t.(queue := qs);
      Overwritten(s.products, p, s1.products[p], t.(queue := qs));
    }
  }

  /** Appending the first element and then the rest is appending all. */
  lemma AppendFirst<T>(a: seq<T>, q: seq<T>)
    requires q != []
    ensures a + [q[0]] + q[1..] == a + q
  {
    assert q == [q[0]] + q[1..];
  }

  /** The replay of a queue whose first message arrives while its product
      is resyncing continues from the state with that message queued. */
  lemma ReplayQueued(s: Sync, q: seq<Message>, p: ProductId)
    requires Consistent(s) && p in s.products && s.products[p].sequence == Resyncing
    requires q != [] && q[0].Feed? && q[0].productId == p
    ensures Consistent(Pushed(s, p, q[0])) && Replay(s, q) == Replay(Pushed(s, p, q[0]), q[1..])
  {
    StepResyncing(s, q[0]);
    StepConsistent(s, q[0]);
  }

  /** A replay of messages of one product leaves every other product as
      it was. */
  lemma {:induction false} ReplayIsolation(s: Sync, q: seq<Message>, p: ProductId, x: ProductId)
    requires Consistent(s) && x != p
    requires forall i :: 0 <= i < |q| ==> q[i].Feed? && q[i].productId == p
    ensures var r := Replay(s, q).state;
            && (x in r.products <==> x in s.products)
            && (x in s.products ==> r.products[x] == s.products[x])
            && r.fetches[x] == s.fetches[x]
    decreases |q|
  {
    if q != [] {
      StepIsolation(s, q[0], x);
      StepConsistent(s, q[0]);
      if !Step(s, q[0]).failed {
        ReplayIsolation(Step(s, q[0]).state, q[1..], p, x);
      }
    }
  }

  // ------------------------------------------------------------ landing

  /** A landed snapshot whose replay did not throw leaves the queue of its
      product empty, even when a replayed message started a new resync. */
  lemma LandedEmptiesQueue(s: Sync, p: ProductId, snap: Snapshot)
    requires Consistent(s) && p in s.fetches
    ensures var r := Landed(s, p, snap);
            !r.failed ==> p in r.state.products && r.state.products[p].queue == []
  {
  }

  /** The snapshot callback keeps the invariant. */
  lemma LandedKeepsConsistent(s: Sync, p: ProductId, snap: Snapshot)
    requires Consistent(s) && p in s.fetches
    ensures Consistent(Landed(s, p, snap).state)
  {
    var r := Replay(Reloading(s, p, snap), s.products[p].queue);
    if !r.failed {
      ValidAt(r.state, p);
      UpdatedConsistent(r.state, p, r.state.products[p].(queue := []), r.state.fetches);
    }
  }

  /** The failure callback keeps the invariant. */
  lemma FetchFailedConsistent(s: Sync, p: ProductId)
    requires Consistent(s) && p in s.fetches
    ensures Consistent(FetchFailed(s, p))
  {
    var f := s.fetches - multiset{p};
    forall x | x in f ensures x in s.fetches && f[x] == 1 {
      assert f[x] <= s.fetches[x];
    }
  }

  /** Landing a snapshot of one product leaves every other product as it
      was. */
  lemma LandedIsolation(s: Sync, p: ProductId, snap: Snapshot, x: ProductId)
    requires Consistent(s) && p in s.fetches && x != p
    ensures var r := Landed(s, p, snap).state;
            && (x in r.products <==> x in s.products)
            && (x in s.products ==> r.products[x] == s.products[x])
            && r.fetches[x] == s.fetches[x]
  {
    var s' := Reloading(s, p, snap);
    ValidAt(s, p);
    ReplayIsolation(s', s.products[p].queue, p, x);
  }

  /** The state a replay that only advanced `p` lands in. */
  lemma LandedState(s: Sync, p: ProductId, snap: Snapshot, n: int, b: Book)
    requires Consistent(s) && p in s.fetches
    ensures var r := Advanced(Reloading(s, p, snap), p, n, b);
            p in r.products &&
            Sync(s.products[p := Tracked(n, [], b)], s.fetches - multiset{p})
            == r.(products := r.products[p := r.products[p].(queue := [])])
  {
    var t := s.products[p];
    var t1 := t.(sequence := snap.sequence, book := Reloaded(BookOf(s, p), snap.bids, snap.asks));
    var t2 := t1.(sequence := n, book := b);
    assert t2.(queue := []) == Tracked(n, [], b);
    Overwritten(s.products, p, t1, t2);
    Overwritten(s.products, p, t2, Tracked(n, [], b));
  }

  /** A map updated twice at one key is the map updated once. */
  lemma Overwritten<K, V>(m: map<K, V>, k: K, v1: V, v2: V)
    ensures m[k := v1][k := v2] == m[k := v2]
  {
  }

  /** Replay correctness: when the queue holds messages the snapshot
      already covers followed by the messages after it without a gap, the
      landed book is the snapshot with the later events applied in order,
      the watermark is the last message's number `n` and the queue is
      empty; nothing else changes but the end of the request. */
  lemma LandedInOrder(s: Sync, p: ProductId, snap: Snapshot,
                      stale: seq<Message>, later: seq<Message>, es: seq<Event>, b: Book, n: int)
    requires Consistent(s) && p in s.fetches
    requires s.products[p].queue == stale + later
    requires Covered(stale, p, snap.sequence) && Contiguous(later, p, snap.sequence, es)
    requires ApplyAll(Reloaded(BookOf(s, p), snap.bids, snap.asks), es) == Ok(b)
    requires n == snap.sequence + |later|
    ensures Landed(s, p, snap) == Run(Sync(s.products[p := Tracked(n, [], b)], s.fetches - multiset{p}), false)
  {
    InOrderReplay(s, p, snap, stale, later, es, b, n);
    LandedState(s, p, snap, n, b);
    LandedFrom(s, p, snap, Advanced(Reloading(s, p, snap), p, n, b),
               Sync(s.products[p := Tracked(n, [], b)], s.fetches - multiset{p}));
  }

  /** The replay part of `LandedInOrder`. */
  lemma InOrderReplay(s: Sync, p: ProductId, snap: Snapshot,
                      stale: seq<Message>, later: seq<Message>, es: seq<Event>, b: Book, n: int)
    requires Consistent(s) && p in s.fetches
    requires s.products[p].queue == stale + later
    requires Covered(stale, p, snap.sequence) && Contiguous(later, p, snap.sequence, es)
    requires ApplyAll(Reloaded(BookOf(s, p), snap.bids, snap.asks), es) == Ok(b)
    requires n == snap.sequence + |later|
    ensures Replay(Reloading(s, p, snap), s.products[p].queue) == Run(Advanced(Reloading(s, p, snap), p, n, b), false)
  {
    QueueReplayed(Reloading(s, p, snap), p, s.products[p].queue, stale, later, es, b, n);
  }

  /** The replay of stale messages followed by contiguous ones. */
  lemma QueueReplayed(s: Sync, p: ProductId, q: seq<Message>, stale: seq<Message>, later: seq<Message>,
                      es: seq<Event>, b: Book, n: int)
    requires Consistent(s) && p in s.products && 0 <= s.products[p].sequence
    requires q == stale + later
    requires Covered(stale, p, s.products[p].sequence) && Contiguous(later, p, s.products[p].sequence, es)
    requires ApplyAll(BookOf(s, p), es) == Ok(b) && n == s.products[p].sequence + |later|
    ensures Replay(s, q) == Run(Advanced(s, p, n, b), false)
  {
    ReplayStale(s, stale, p);
    ReplayThen(s, stale, later, s);
    ReplayContiguous(s, later, p, es, b, n);
  }

  /** A landing whose replay ends in `x` without a throw ends in `x` with
      the queue of `p` emptied. */
  lemma LandedFrom(s: Sync, p: ProductId, snap: Snapshot, x: Sync, y: Sync)
    requires Consistent(s) && p in s.fetches
    requires Replay(Reloading(s, p, snap), s.products[p].queue) == Run(x, false)
    requires p in x.products && y == x.(products := x.products[p := x.products[p].(queue := [])])
    ensures Landed(s, p, snap) == Run(y, false)
  {
  }
}
