/** Class OrderbookSync of lib/orderbook_sync.js: the watermarks, the queues
    and the books of the tracked products are dictionaries that the message
    handler and the snapshot callbacks update in place.  The three
    dictionaries are kept as exact views of a ghost `SyncSpec.Sync` value,
    and every method is proved to leave that value as its reaction function
    in `SyncSpec` gives. */
module OrderbookSync {
  import opened Wrappers
  import opened OrderbookSpec
  import opened SyncSpec
  import opened SyncProperties
  import Orderbook

  /** The `switch (type)` of `processMessage` on a book object: `add`,
      `remove`, `match` or `change`; `ok` is false when the book operation
      throws.  This is the book operation `Apply` stands for. */
  method Perform(book: Orderbook.Orderbook, e: Event) returns (ok: bool)
    requires book.Valid()
    modifies book
    ensures book.Valid()
    ensures ok == Apply(old(book.Value()), e).Ok?
    ensures book.Value() == if ok then Apply(old(book.Value()), e).value else old(book.Value())
  {
    match e
    case Open(id, side, price, size) =>
      book.Add(id, side, price, size);
      ok := true;
    case Done(id) =>
      ok := book.Remove(id);
    case MatchEvent(maker, side, price, size) =>
      ok := book.Match(maker, side, price, size);
    case ChangeEvent(id, side, price, newSize, oldSize) =>
      ok := book.Change(id, side, price, newSize, oldSize);
    case Other =>
      ok := true;
  }

  /** `_sequences` as a view of the tracked products. */
  function Sequences(ps: map<ProductId, Tracked>): (r: map<ProductId, int>)
    ensures r.Keys == ps.Keys
  {
    map p | p in ps :: ps[p].sequence
  }

  /** `_queues` as a view of the tracked products. */
  function Queues(ps: map<ProductId, Tracked>): (r: map<ProductId, seq<Message>>)
    ensures r.Keys == ps.Keys
  {
    map p | p in ps :: ps[p].queue
  }

  /** `books` as a view of the tracked products. */
  function Books(ps: map<ProductId, Tracked>): (r: map<ProductId, Book>)
    ensures r.Keys == ps.Keys
  {
    map p | p in ps :: ps[p].book
  }

  /** Overwriting the entry of one product overwrites it in each view. */
  lemma Updated(ps: map<ProductId, Tracked>, p: ProductId, t: Tracked)
    ensures Sequences(ps[p := t]) == Sequences(ps)[p := t.sequence]
    ensures Queues(ps[p := t]) == Queues(ps)[p := t.queue]
    ensures Books(ps[p := t]) == Books(ps)[p := t.book]
  {
  }

  /** Storing the value a key already holds changes nothing. */
  lemma Restored<K, V>(m: map<K, V>, k: K)
    requires k in m
    ensures m[k := m[k]] == m
  {
  }

  /** The views after the reload of `p` from `snap`. */
  lemma ReloadingViews(s: Sync, p: ProductId, snap: Snapshot)
    requires Consistent(s) && p in s.fetches && TrackedValid(p, s.products[p])
    ensures var r := Reloading(s, p, snap).products;
            && Sequences(r) == Sequences(s.products)[p := snap.sequence]
            && Queues(r) == Queues(s.products)
            && Books(r) == Books(s.products)[p := Reloaded(s.products[p].book, snap.bids, snap.asks)]
  {
    var t := s.products[p];
    Updated(s.products, p, t.(sequence := snap.sequence, book := Reloaded(t.book, snap.bids, snap.asks)));
    Restored(Queues(s.products), p);
  }

  class OrderbookSync {
    /** `_sequences`. */
    var sequences: map<ProductId, int>
    /** `_queues`. */
    var queues: map<ProductId, seq<Message>>
    /** `books`, each book by its contents. */
    var books: map<ProductId, Book>
    /** The synchroniser as a value; its `fetches` are the products whose
        `getProductOrderBook` request has neither delivered nor failed. */
    ghost var state: Sync

    /** The three dictionaries are the views of the tracked products, and
        the value is consistent. */
    ghost predicate Valid()
      reads this
    {
      && sequences == Sequences(state.products)
      && queues == Queues(state.products)
      && books == Books(state.products)
      && Consistent(state)
    }

    /** `productIDs.forEach(this._newProduct, this)` of the constructor. */
    constructor (productIds: seq<ProductId>)
      ensures Valid() && state == NewProducts(Initial, productIds)
    {
      sequences, queues, books := map[], map[], map[];
      state := Initial;
      assert Sequences(map[]) == map[] && Queues(map[]) == map[] && Books(map[]) == map[];
      new;
      AddProducts(productIds);
    }

    /** `_newProduct(p)`: a new empty queue and book, watermark -2. */
    method NewProduct(p: ProductId)
      requires Valid() && p !in state.fetches
      modifies this
      ensures Valid() && state == SyncSpec.NewProduct(old(state), p)
    {
      Updated(state.products, p, Tracked(Unloaded, [], Empty));
      NewProductConsistent(state, p);
      queues, sequences, books, state :=
        queues[p := []], sequences[p := Unloaded], books[p := Empty], SyncSpec.NewProduct(state, p);
    }

    /** `ps.forEach(this._newProduct, this)`. */
    method AddProducts(ps: seq<ProductId>)
      requires Valid() && forall p :: p in ps ==> p !in state.fetches
      modifies this
      ensures Valid() && state == NewProducts(old(state), ps)
    {
      var k := 0;
      while k < |ps|
        invariant 0 <= k <= |ps|
        invariant Valid() && state.fetches == old(state.fetches)
        invariant NewProducts(state, ps[k..]) == NewProducts(old(state), ps)
      {
        assert ps[k..][1..] == ps[k + 1..];
        NewProduct(ps[k]);
        k := k + 1;
      }
    }

    /** `_newSubscription(data)`. */
    method NewSubscription(cs: seq<Channel>)
      requires Valid()
      modifies this
      ensures Valid() && state == SyncSpec.NewSubscription(old(state), cs)
    {
      var c := FullChannel(cs);
      if c.Some? {
        AddProducts(Untracked(books.Keys, c.value.productIds));
      }
    }

    /** `loadOrderbook(p)` up to the request: the snapshot request joins
        the requests in flight. */
    method LoadOrderbook(p: ProductId)
      requires Valid() && (p in sequences ==> sequences[p] != Resyncing)
      modifies this
      ensures Valid() && state == SyncSpec.LoadOrderbook(old(state), p)
    {
      if p !in books {
        return;
      }
      var t := state.products[p];
      Updated(state.products, p, t.(sequence := Resyncing, queue := []));
      Restored(books, p);
      LoadConsistent(state, p);
      queues, sequences, state :=
        queues[p := []], sequences[p := Resyncing], SyncSpec.LoadOrderbook(state, p);
    }

    /** `_queues[p].push(m)`. */
    method Enqueue(p: ProductId, m: Message)
      requires Valid() && m.Feed? && m.productId == p && p in books
      modifies this
      ensures sequences == old(sequences)
      ensures Valid() && state == Pushed(old(state), p, m)
    {
      var t := state.products[p];
      Updated(state.products, p, t.(queue := t.queue + [m]));
      Restored(sequences, p);
      Restored(books, p);
      PushedConsistent(state, m);
      queues, state := queues[p := queues[p] + [m]], Pushed(state, p, m);
    }

    /** The end of `processMessage` for the next message of a loaded
        product: the watermark moves, then the book operation runs. */
    method Advance(p: ProductId, m: Message) returns (failed: bool)
      requires Valid() && m.Feed? && m.productId == p && p in books
      requires 0 <= sequences[p] && m.sequence == sequences[p] + 1
      modifies this
      ensures Valid() && state == Step(old(state), m).state && failed == Step(old(state), m).failed
    {
      var t := state.products[p];
      ValidAt(state, p);
      StepNext(state, m);
      assert books[p] == t.book && sequences[p] == t.sequence;
      sequences := sequences[p := m.sequence];
      var a := Apply(books[p], m.event);
      failed := a.AssertionError?;
      if !failed {
        books := books[p := a.value];
      }
      var b := if failed then t.book else a.value;
      Updated(state.products, p, t.(sequence := m.sequence, book := b));
      Restored(queues, p);
      Restored(old(books), p);
      AdvancedConsistent(state, p, m.sequence, b);
      state := Advanced(state, p, m.sequence, b);
    }

    /** `processMessage(data)`; `failed` is true when the book operation
        throws. */
    method ProcessMessage(m: Message) returns (failed: bool)
      requires Valid()
      modifies this
      ensures Valid() && state == Step(old(state), m).state && failed == Step(old(state), m).failed
    {
      failed := false;
      if m.Subscriptions? {
        NewSubscription(m.channels);
        return;
      }
      var p := m.productId;
      if p in sequences && sequences[p] < 0 {
        ProcessPending(p, m);
        return;
      }
      failed := ProcessLoaded(p, m);
    }

    /** `processMessage` below watermark 0: the message is queued, and the
        first message of the product starts its first load. */
    method ProcessPending(p: ProductId, m: Message)
      requires Valid() && m.Feed? && m.productId == p && p in sequences && sequences[p] < 0
      modifies this
      ensures Valid() && state == Step(old(state), m).state && !Step(old(state), m).failed
    {
      ghost var s := state;
      ValidAt(s, p);
      assert sequences[p] == s.products[p].sequence;
      Enqueue(p, m);
      if sequences[p] == Unloaded {
        LoadOrderbook(p);
        return;
      }
      if sequences[p] == Resyncing {
        return;
      }
    }

    /** `processMessage` from watermark 0 up, or for an untracked product:
        a message at or below the watermark is skipped, one beyond the next
        starts a resync, and the next one is applied. */
    method ProcessLoaded(p: ProductId, m: Message) returns (failed: bool)
      requires Valid() && m.Feed? && m.productId == p && (p in sequences ==> sequences[p] >= 0)
      modifies this
      ensures Valid() && state == Step(old(state), m).state && failed == Step(old(state), m).failed
    {
      ghost var s := state;
      assert p in sequences ==> sequences[p] == s.products[p].sequence;
      failed := false;
      if p in sequences && m.sequence <= sequences[p] {
        StepStale(s, m);
        return;
      }
      if p !in sequences || m.sequence != sequences[p] + 1 {
        if p !in sequences {
          StepUntracked(s, m);
        }
        LoadOrderbook(p);
        return;
      }
      failed := Advance(p, m);
    }

    /** The first statements of the `process` callback: the book is
        reloaded from the snapshot and the watermark set to its sequence
        number; the request is over. */
    method Reload(p: ProductId, snap: Snapshot)
      requires Valid() && p in state.fetches
      modifies this
      ensures Valid() && state == Reloading(old(state), p, snap)
    {
      ValidAt(state, p);
      ReloadingViews(state, p, snap);
      var b := Reloaded(books[p], snap.bids, snap.asks);
      books := books[p := b];
      sequences := sequences[p := snap.sequence];
      state := Reloading(state, p, snap);
    }

    /** `_queues[p] = []` at the end of the `process` callback. */
    method Drain(p: ProductId)
      requires Valid() && p in books
      modifies this
      ensures Valid() && state == old(state).(products := old(state).products[p := old(state).products[p].(queue := [])])
    {
      var t := state.products[p];
      Updated(state.products, p, t.(queue := []));
      Restored(sequences, p);
      Restored(books, p);
      ValidAt(state, p);
      UpdatedConsistent(state, p, t.(queue := []), state.fetches);
      queues, state := queues[p := []], state.(products := state.products[p := t.(queue := [])]);
    }

    /** The `process` callback of `loadOrderbook(p)` on snapshot `snap`;
        `failed` is true when a replayed message throws. */
    method OnSnapshot(p: ProductId, snap: Snapshot) returns (failed: bool)
      requires Valid() && p in state.fetches
      modifies this
      ensures Valid() && state == Landed(old(state), p, snap).state && failed == Landed(old(state), p, snap).failed
    {
      ghost var r := Replay(Reloading(state, p, snap), state.products[p].queue);
      Reload(p, snap);
      var q := queues[p];
      failed := false;
      var k := 0;
      while k < |q|
        invariant 0 <= k <= |q|
        invariant Valid() && p in books
        invariant Replay(state, q[k..]) == r
      {
        assert q[k..][0] == q[k] && q[k..][1..] == q[k + 1..];
        ReplayFirst(state, q[k..]);
        failed := ProcessMessage(q[k]);
        if failed {
          return;
        }
        k := k + 1;
      }
      assert q[k..] == [];
      Drain(p);
    }

    /** The `problems` callback of `loadOrderbook(p)`. */
    method OnFetchFailed(p: ProductId)
      requires Valid() && p in state.fetches
      modifies this
      ensures Valid() && state == FetchFailed(old(state), p)
    {
      FetchFailedConsistent(state, p);
      state := FetchFailed(state, p);
    }
  }
}
