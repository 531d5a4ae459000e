/** The synchroniser of lib/orderbook_sync.js as a value, and each of its
    reactions (to a feed message, to a snapshot arriving, to a snapshot
    request failing) as a function from the old state to the new one.
    These functions are the specification that the methods of class
    `OrderbookSync.OrderbookSync` are proved against.

    Per product the synchroniser keeps a sequence watermark, a queue of
    messages held back while no snapshot is loaded, and an order book (the
    entries of `_sequences`, `_queues` and `books`, which are always created
    together).  The watermark is `Unloaded` (-2) before the first snapshot
    is requested, `Resyncing` (-1) while a snapshot is awaited, and
    otherwise the sequence number of the last message applied.  The
    snapshot requests still in flight are kept as a multiset of products. */
module SyncSpec {
  import opened Wrappers
  import opened OrderbookSpec

  type ProductId = string

  /** An entry of the `channels` list of a subscriptions message. */
  datatype Channel = Channel(name: string, productIds: seq<ProductId>)

  /** What a message of the full channel asks of the book.  `Other` stands
      for every other message type (`received`, `activate`, ...), which the
      book ignores but which still moves the watermark. */
  datatype Event =
    | Open(orderId: OrderId, side: Side, price: int, size: int)
    | Done(orderId: OrderId)
    | MatchEvent(makerOrderId: OrderId, side: Side, price: int, size: int)
    | ChangeEvent(orderId: OrderId, side: Side, limitPrice: Option<int>, newSize: int, oldSize: int)
    | Other

  /** A message from the feed: a subscriptions message, or a message of one
      product carrying its sequence number. */
  datatype Message =
    | Subscriptions(channels: seq<Channel>)
    | Feed(productId: ProductId, sequence: nat, event: Event)

  /** The level-3 snapshot `getProductOrderBook` delivers. */
  datatype Snapshot = Snapshot(sequence: nat, bids: seq<Row>, asks: seq<Row>)

  /** What is kept for one tracked product: `_sequences[p]`, `_queues[p]`
      and `books[p]`. */
  datatype Tracked = Tracked(sequence: int, queue: seq<Message>, book: Book)

  /** The tracked products, and the snapshot requests in flight. */
  datatype Sync = Sync(products: map<ProductId, Tracked>, fetches: multiset<ProductId>)

  /** The state a reaction leaves, and whether it stopped at an exception
      thrown by a failed `assert` of the book. */
  datatype Run = Run(state: Sync, failed: bool)

  /** `_sequences[p] = -2`: no snapshot requested yet. */
  const Unloaded: int := -2

  /** `_sequences[p] = -1`: a snapshot request is in flight. */
  const Resyncing: int := -1

  /** Only messages of product `p` are ever queued for it. */
  predicate QueuedFor(p: ProductId, q: seq<Message>)
  {
    forall m :: m in q ==> m.Feed? && m.productId == p
  }

  /** The watermark is -2, -1 or a sequence number, the queue holds only
      the product's own messages, and the book is well formed. */
  predicate TrackedValid(p: ProductId, t: Tracked)
  {
    t.sequence >= Unloaded && QueuedFor(p, t.queue) && WellFormed(t.book)
  }

  /** The invariant every reaction keeps: every tracked product is valid,
      and a product has at most one snapshot request in flight, and only
      while it is tracked and resyncing. */
  predicate Consistent(s: Sync)
  {
    && (forall p {:trigger TrackedValid(p, s.products[p])} :: p in s.products ==> TrackedValid(p, s.products[p]))
    && (forall p :: p in s.fetches ==>
          p in s.products && s.fetches[p] == 1 && s.products[p].sequence == Resyncing)
  }

  /** The invariant at one tracked product. */
  lemma ValidAt(s: Sync, p: ProductId)
    requires Consistent(s) && p in s.products
    ensures TrackedValid(p, s.products[p])
  {
  }

  /** The book of a tracked product, which the invariant keeps well
      formed. */
  function BookOf(s: Sync, p: ProductId): (b: Book)
    requires Consistent(s) && p in s.products
    ensures WellFormed(b) && b == s.products[p].book
  {
    ValidAt(s, p);
    s.products[p].book
  }

  /** A synchroniser tracking no product. */
  const Initial: Sync := Sync(map[], multiset{})

  // -------------------------------------------------------- subscriptions

  /** `_newProduct(p)`: an empty queue, watermark -2, and a new empty book. */
  function NewProduct(s: Sync, p: ProductId): (r: Sync)
    ensures r.products.Keys == s.products.Keys + {p} && r.fetches == s.fetches
  {
    s.(products := s.products[p := Tracked(Unloaded, [], Empty)])
  }

  /** `ps.forEach(_newProduct)`. */
  function NewProducts(s: Sync, ps: seq<ProductId>): (r: Sync)
    ensures r.fetches == s.fetches
    decreases |ps|
  {
    if ps == [] then s else NewProducts(NewProduct(s, ps[0]), ps[1..])
  }

  /** `channels.find(c => c.name === 'full')`: the first channel named
      `full`, if any. */
  function FullChannel(cs: seq<Channel>): (r: Option<Channel>)
    ensures r.Some? <==> exists i :: 0 <= i < |cs| && cs[i].name == "full"
    ensures r.Some? ==> r.value in cs && r.value.name == "full"
    ensures r.Some? ==> exists i :: 0 <= i < |cs| && cs[i] == r.value && NoneFullBefore(cs, i)
  {
    if cs == [] then None
    else if cs[0].name == "full" then
      assert cs[0] == cs[0] && NoneFullBefore(cs, 0);
      Some(cs[0])
    else
      var r := FullChannel(cs[1..]);
      assert r.Some? ==> r.value in cs;
      assert forall i :: 1 <= i < |cs| ==> cs[i] == cs[1..][i - 1];
      if r.Some? then
        var i :| 0 <= i < |cs[1..]| && cs[1..][i] == r.value && NoneFullBefore(cs[1..], i);
        assert cs[i + 1] == r.value && NoneFullBefore(cs, i + 1);
        r
      else r
  }

  /** No channel before index `i` is named `full`. */
  predicate NoneFullBefore(cs: seq<Channel>, i: int)
    requires 0 <= i <= |cs|
  {
    forall j :: 0 <= j < i ==> cs[j].name != "full"
  }

  /** `ps.filter(p => !(p in this.books))`, computed before any is added. */
  function Untracked(tracked: set<ProductId>, ps: seq<ProductId>): (r: seq<ProductId>)
    ensures forall p :: p in r <==> p in ps && p !in tracked
    ensures |r| <= |ps|
    decreases |ps|
  {
    if ps == [] then []
    else if ps[0] in tracked then Untracked(tracked, ps[1..])
    else [ps[0]] + Untracked(tracked, ps[1..])
  }

  /** `_newSubscription(data)`: every product of the full channel not yet
      tracked becomes tracked; without a full channel nothing changes. */
  function NewSubscription(s: Sync, cs: seq<Channel>): (r: Sync)
    ensures r.fetches == s.fetches
  {
    var c := FullChannel(cs);
    if c.None? then s else NewProducts(s, Untracked(s.products.Keys, c.value.productIds))
  }

  // ------------------------------------------------------------- loading

  /** `loadOrderbook(p)`: nothing for an untracked product; otherwise the
      queue is emptied, the watermark set to -1, and a snapshot requested. */
  function LoadOrderbook(s: Sync, p: ProductId): (r: Sync)
    ensures p !in s.products ==> r == s
    ensures p in s.products ==> p in r.products && r.products[p].book == s.products[p].book
    ensures p in s.products ==> r.fetches[p] == s.fetches[p] + 1
  {
    if p !in s.products then s
    else Sync(s.products[p := s.products[p].(sequence := Resyncing, queue := [])],
              s.fetches + multiset{p})
  }

  /** The book operation a message of the given event performs:
      `add`, `remove`, `match`, `change`, or none. */
  function Apply(b: Book, e: Event): (r: Outcome<Book>)
    requires WellFormed(b)
    ensures r.Ok? ==> WellFormed(r.value)
  {
    if e.Open? then
      AddedWellFormed(b, e.orderId, e.side, e.price, e.size);
      Ok(Added(b, e.orderId, e.side, e.price, e.size))
    else if e.Done? then
      RemovedWellFormed(b, e.orderId);
      Removed(b, e.orderId)
    else if e.MatchEvent? then Matched(b, e.makerOrderId, e.side, e.price, e.size)
    else if e.ChangeEvent? then Changed(b, e.orderId, e.side, e.limitPrice, e.newSize, e.oldSize)
    else Ok(b)
  }

  /** `_queues[p].push(m)`. */
  function Pushed(s: Sync, p: ProductId, m: Message): (r: Sync)
    requires p in s.products
    ensures r.products.Keys == s.products.Keys && r.fetches == s.fetches
  {
    s.(products := s.products[p := s.products[p].(queue := s.products[p].queue + [m])])
  }

  /** `_sequences[p] = n` together with the book of `p` becoming `b`. */
  function Advanced(s: Sync, p: ProductId, n: int, b: Book): (r: Sync)
    requires p in s.products
    ensures r.products.Keys == s.products.Keys && r.fetches == s.fetches
    ensures r.products[p].queue == s.products[p].queue
  {
    s.(products := s.products[p := s.products[p].(sequence := n, book := b)])
  }

  /** `processMessage(data)`.  A subscriptions message goes to
      `_newSubscription`.  A message of an untracked product changes
      nothing (every comparison with the missing watermark is false, and
      the `loadOrderbook` it reaches returns at once).  Otherwise: below 0
      the message is queued; at -2 a first load starts (which empties the
      queue again); at -1 nothing more happens; a sequence number at or
      below the watermark is skipped; one beyond the next starts a resync;
      the next one moves the watermark and is applied to the book.  A
      failed `assert` in the book throws after the watermark has moved and
      before the book has changed. */
  function Step(s: Sync, m: Message): (r: Run)
    requires Consistent(s)
    ensures r.failed ==> m.Feed? && m.productId in s.products && 0 <= s.products[m.productId].sequence
    ensures r.failed ==> m.sequence == s.products[m.productId].sequence + 1
  {
    if m.Subscriptions? then Run(NewSubscription(s, m.channels), false)
    else
      var p := m.productId;
      if p !in s.products then Run(s, false)
      else
        var t := s.products[p];
        if t.sequence == Unloaded then Run(LoadOrderbook(Pushed(s, p, m), p), false)
        else if t.sequence == Resyncing then Run(Pushed(s, p, m), false)
        else if m.sequence <= t.sequence then Run(s, false)
        else if m.sequence != t.sequence + 1 then Run(LoadOrderbook(s, p), false)
        else
          ValidAt(s, p);
          var a := Apply(t.book, m.event);
          if a.AssertionError? then Run(Advanced(s, p, m.sequence, t.book), true)
          else Run(Advanced(s, p, m.sequence, a.value), false)
  }

  /** `queue.forEach(processMessage)`: the messages in order, stopping at
      the first that throws.  No product stops being tracked. */
  function Replay(s: Sync, q: seq<Message>): (r: Run)
    requires Consistent(s)
    ensures Consistent(r.state)
    ensures s.products.Keys <= r.state.products.Keys
    decreases |q|
  {
    if q == [] then Run(s, false)
    else
      StepConsistent(s, q[0]);
      var r := Step(s, q[0]);
      if r.failed then r else Replay(r.state, q[1..])
  }

  /** The first message of a replay: it stops the replay when it throws,
      and otherwise the rest is replayed from the state it leaves. */
  lemma ReplayFirst(s: Sync, q: seq<Message>)
    requires Consistent(s) && q != []
    ensures Consistent(Step(s, q[0]).state) && s.products.Keys <= Step(s, q[0]).state.products.Keys
    ensures Step(s, q[0]).failed ==> Replay(s, q) == Step(s, q[0])
    ensures !Step(s, q[0]).failed ==> Replay(s, q) == Replay(Step(s, q[0]).state, q[1..])
  {
    StepConsistent(s, q[0]);
  }

  /** The state the `process` callback replays from: the same book object
      reloaded from the snapshot, the watermark at the snapshot's sequence
      number, and the request over. */
  function Reloading(s: Sync, p: ProductId, snap: Snapshot): (r: Sync)
    requires Consistent(s) && p in s.fetches
    ensures Consistent(r)
  {
    var t := s.products[p];
    ValidAt(s, p);
    var r := Sync(s.products[p := t.(sequence := snap.sequence, book := Reloaded(t.book, snap.bids, snap.asks))],
                  s.fetches - multiset{p});
    ReloadingConsistent(s, p, snap, r);
    r
  }

  /** The `process` callback of `loadOrderbook(p)` on snapshot `snap`: the
      book is reloaded, the watermark becomes the snapshot's sequence
      number, the queue as it was when the snapshot arrived is replayed
      through `processMessage`, and then the queue of `p` is emptied.  If a
      replayed message throws, the rest of the callback is skipped and the
      queue keeps what it held at the throw. */
  function Landed(s: Sync, p: ProductId, snap: Snapshot): (r: Run)
    requires Consistent(s) && p in s.fetches
    ensures !r.failed ==> p in r.state.products && r.state.products[p].queue == []
  {
    var r := Replay(Reloading(s, p, snap), s.products[p].queue);
    if r.failed then r
    else Run(r.state.(products := r.state.products[p := r.state.products[p].(queue := [])]), false)
  }

  /** The `problems` callback: the request is over and nothing else
      changes, so the product stays resyncing. */
  function FetchFailed(s: Sync, p: ProductId): (r: Sync)
    requires p in s.fetches
    ensures r.products == s.products && r.fetches[p] == s.fetches[p] - 1
  {
    s.(fetches := s.fetches - multiset{p})
  }

  // ------------------------------------------------------------ invariant

  /** Overwriting the entry of one product keeps the invariant when the new
      entry and the requests in flight satisfy it. */
  lemma UpdatedConsistent(s: Sync, p: ProductId, t: Tracked, f: multiset<ProductId>)
    requires Consistent(s) && TrackedValid(p, t)
    requires forall x :: x in f ==> f[x] == 1 && (x == p || x in s.products)
    requires forall x :: x in f ==> if x == p then t.sequence == Resyncing else s.products[x].sequence == Resyncing
    ensures Consistent(Sync(s.products[p := t], f))
  {
  }

  lemma ReloadingConsistent(s: Sync, p: ProductId, snap: Snapshot, r: Sync)
    requires Consistent(s) && p in s.fetches && TrackedValid(p, s.products[p])
    requires var t := s.products[p];
             r == Sync(s.products[p := t.(sequence := snap.sequence, book := Reloaded(t.book, snap.bids, snap.asks))],
                       s.fetches - multiset{p})
    ensures Consistent(r)
  {
    var f := s.fetches - multiset{p};
    assert p !in f;
    forall x | x in f ensures x in s.fetches && f[x] == 1 {
      assert f[x] == s.fetches[x];
    }
    var t := s.products[p];
    ValidAt(s, p);
    UpdatedConsistent(s, p, t.(sequence := snap.sequence, book := Reloaded(t.book, snap.bids, snap.asks)), f);
  }

  /** Adding a product without a request in flight keeps the invariant. */
  lemma NewProductConsistent(s: Sync, p: ProductId)
    requires Consistent(s) && p !in s.fetches
    ensures Consistent(NewProduct(s, p))
  {
    assert WellFormed(Empty);
    UpdatedConsistent(s, p, Tracked(Unloaded, [], Empty), s.fetches);
  }

  lemma {:induction false} NewProductsConsistent(s: Sync, ps: seq<ProductId>)
    requires Consistent(s) && forall p :: p in ps ==> p !in s.fetches
    ensures Consistent(NewProducts(s, ps))
    decreases |ps|
  {
    if ps != [] {
      NewProductConsistent(s, ps[0]);
      assert forall p :: p in ps[1..] ==> p in ps;
      NewProductsConsistent(NewProduct(s, ps[0]), ps[1..]);
    }
  }

  /** Starting a load of a tracked product that is not resyncing keeps the
      invariant. */
  lemma LoadConsistent(s: Sync, p: ProductId)
    requires Consistent(s) && p in s.products && s.products[p].sequence != Resyncing
    ensures Consistent(LoadOrderbook(s, p))
  {
    assert p !in s.fetches;
    var f := s.fetches + multiset{p};
    forall x | x in f ensures f[x] == 1 && (x == p || x in s.products) {
      if x != p { assert f[x] == s.fetches[x]; }
    }
    ValidAt(s, p);
    UpdatedConsistent(s, p, s.products[p].(sequence := Resyncing, queue := []), f);
  }

  /** Queueing a message of its own product keeps the invariant. */
  lemma PushedConsistent(s: Sync, m: Message)
    requires Consistent(s) && m.Feed? && m.productId in s.products
    ensures Consistent(Pushed(s, m.productId, m))
  {
    var p := m.productId;
    var t := s.products[p];
    ValidAt(s, p);
    assert QueuedFor(p, t.queue + [m]);
    UpdatedConsistent(s, p, t.(queue := t.queue + [m]), s.fetches);
  }

  /** Moving the watermark of a loaded product, and replacing its book by a
      well-formed one, keeps the invariant. */
  lemma AdvancedConsistent(s: Sync, p: ProductId, n: nat, b: Book)
    requires Consistent(s) && p in s.products && s.products[p].sequence >= 0 && WellFormed(b)
    ensures Consistent(Advanced(s, p, n, b))
  {
    assert p !in s.fetches;
    ValidAt(s, p);
    UpdatedConsistent(s, p, s.products[p].(sequence := n, book := b), s.fetches);
  }

  /** A subscriptions message keeps the invariant. */
  lemma SubscriptionConsistent(s: Sync, cs: seq<Channel>)
    requires Consistent(s)
    ensures Consistent(NewSubscription(s, cs))
  {
    var c := FullChannel(cs);
    if c.Some? {
      NewProductsConsistent(s, Untracked(s.products.Keys, c.value.productIds));
    }
  }

  /** Adding products keeps the ones already tracked. */
  lemma {:induction false} NewProductsKeys(s: Sync, ps: seq<ProductId>)
    ensures s.products.Keys <= NewProducts(s, ps).products.Keys
    decreases |ps|
  {
    if ps != [] {
      NewProductsKeys(NewProduct(s, ps[0]), ps[1..]);
    }
  }

  /** Each reaction to a feed message keeps the invariant, and no product
      stops being tracked. */
  lemma StepConsistent(s: Sync, m: Message)
    requires Consistent(s)
    ensures Consistent(Step(s, m).state)
    ensures s.products.Keys <= Step(s, m).state.products.Keys
  {
    if m.Subscriptions? {
      SubscriptionConsistent(s, m.channels);
      var c := FullChannel(m.channels);
      if c.Some? {
        NewProductsKeys(s, Untracked(s.products.Keys, c.value.productIds));
      }
    } else if m.productId in s.products {
      var p := m.productId;
      var t := s.products[p];
      if t.sequence == Unloaded {
        PushedConsistent(s, m);
        LoadConsistent(Pushed(s, p, m), p);
      } else if t.sequence == Resyncing {
        PushedConsistent(s, m);
      } else if m.sequence > t.sequence && m.sequence != t.sequence + 1 {
        LoadConsistent(s, p);
      } else if m.sequence == t.sequence + 1 {
        ValidAt(s, p);
        var a := Apply(t.book, m.event);
        AdvancedConsistent(s, p, m.sequence, if a.Ok? then a.value else t.book);
      }
    }
  }
}
