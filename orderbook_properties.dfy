/** What the operations of one order book do, stated level by level and
    proved about the specification functions of `OrderbookSpec`. */
module OrderbookProperties {
  import opened Wrappers
  import opened Grouping
  import opened PriceTree
  import opened OrderbookSpec

  /** The other side. */
  function Opposite(side: Side): Side
  {
    if side == Buy then Sell else Buy
  }

  /** The level `add` leaves at the grouped price: the old level with the
      order appended and its size added, or a new level holding the order. */
  function Grown(before: Option<Level>, key: int, h: Handle, size: int): Level
  {
    if before.Some? then Level(key, before.value.size + size, before.value.orders + [h])
    else Level(key, size, [h])
  }

  /** The tree step of `add`, key by key. */
  lemma FiledLevelAt(t: Tree, key: int, h: Handle, size: int, k: int)
    requires Ascending(t)
    ensures Ascending(Filed(t, key, h, size))
    ensures LevelAt(Filed(t, key, h, size), k) ==
              if k == key then Some(Grown(LevelAt(t, key), key, h, size)) else LevelAt(t, k)
  {
    var f := Find(t, key);
    if f.Some? {
      var i := f.value;
      var l := Level(key, t[i].size + size, t[i].orders + [h]);
      LevelAtIndex(t, i);
      assert Grown(LevelAt(t, key), key, h, size) == l;
      assert Filed(t, key, h, size) == Replace(t, i, l);
      ReplaceLevelAt(t, i, l, k);
    } else {
      var l := Level(key, size, [h]);
      assert LevelAt(t, key).None?;
      assert Filed(t, key, h, size) == Insert(t, l);
      InsertLevelAt(t, l, k);
    }
  }

  /** `add`: the new order object is stored under a fresh identity and
      indexed under its id; at the grouped price on its side the level
      gains the order at the end of its list and the order's size (or is
      created with both); every other level, and the other side, is
      unchanged. */
  lemma AddedSpec(b: Book, id: OrderId, side: Side, price: int, size: int, k: int)
    requires WellFormed(b)
    ensures var r := Added(b, id, side, price, size);
            var h := b.nextHandle;
            && r.orders == b.orders[h := Order(id, side, price, size)]
            && r.byId == b.byId[id := h]
            && h !in b.orders
            && TreeOf(r, Opposite(side)) == TreeOf(b, Opposite(side))
            && Ascending(TreeOf(r, side))
            && LevelAt(TreeOf(r, side), k) ==
                 if k == Group(price) then Some(Grown(LevelAt(TreeOf(b, side), k), k, h, size))
                 else LevelAt(TreeOf(b, side), k)
  {
    FiledLevelAt(TreeOf(b, side), Group(price), b.nextHandle, size, k);
  }

  /** The level `remove` leaves behind after splicing `h` out of `l`'s
      list: none if the list is now empty, otherwise the level with the
      shorter list and its stored size unchanged. */
  function AfterRemoval(l: Level, h: Handle): Option<Level>
  {
    var rest := SpliceOne(l.orders, IndexOf(l.orders, h));
    if rest == [] then None else Some(l.(orders := rest))
  }

  /** `remove` of an id the index lacks changes nothing. */
  lemma RemovedAbsent(b: Book, id: OrderId)
    requires WellFormed(b) && id !in b.byId
    ensures Removed(b, id) == Ok(b)
  {
  }

  /** `remove` of an indexed id throws exactly when the order's side has no
      level at the order's grouped price; otherwise the id leaves the index,
      that level becomes `AfterRemoval` of it (its stored size unchanged),
      and every other level, the other side and the order store are
      unchanged. */
  lemma RemovedSpec(b: Book, id: OrderId, h: Handle, k: int)
    requires WellFormed(b) && id in b.byId && b.byId[id] == h
    ensures var side := b.orders[h].side;
            var key := Group(b.orders[h].price);
            var t := TreeOf(b, side);
            && (Removed(b, id).Ok? <==> LevelAt(t, key).Some?)
            && (Removed(b, id).Ok? ==>
                  var r := Removed(b, id).value;
                  && r.orders == b.orders && r.nextHandle == b.nextHandle
                  && r.byId == b.byId - {id}
                  && TreeOf(r, Opposite(side)) == TreeOf(b, Opposite(side))
                  && LevelAt(TreeOf(r, side), k) ==
                       if k == key then AfterRemoval(LevelAt(t, key).value, h) else LevelAt(t, k))
  {
    var o := b.orders[h];
    var key := Group(o.price);
    var t := TreeOf(b, o.side);
    var f := Find(t, key);
    if f.Some? {
      var i := f.value;
      LevelAtIndex(t, i);
      var rest := SpliceOne(t[i].orders, IndexOf(t[i].orders, h));
      var t' := if rest == [] then Delete(t, i) else Replace(t, i, t[i].(orders := rest));
      var r := WithTree(b, o.side, t').(byId := b.byId - {o.id});
      assert Removed(b, id) == Ok(r);
      assert r.orders == b.orders && r.nextHandle == b.nextHandle && r.byId == b.byId - {id};
      assert TreeOf(r, o.side) == t' && TreeOf(r, Opposite(o.side)) == TreeOf(b, Opposite(o.side));
      assert AfterRemoval(t[i], h) == if rest == [] then None else Some(t[i].(orders := rest));
      if rest == [] {
        DeleteLevelAt(t, i, k);
      } else {
        ReplaceLevelAt(t, i, t[i].(orders := rest), k);
      }
    }
  }

  /** Splicing out an order the list holds removes exactly that order and
      keeps the others in their relative order. */
  lemma SplicedIndexed(s: seq<Handle>, h: Handle)
    requires h in s && NoDuplicates(s)
    ensures var i := IndexOf(s, h);
            && SpliceOne(s, i) == s[..i] + s[i + 1..]
            && h !in SpliceOne(s, i)
            && forall x :: x in s && x != h ==> x in SpliceOne(s, i)
  {
    var i := IndexOf(s, h);
    var r := s[..i] + s[i + 1..];
    assert forall j :: 0 <= j < |r| ==> r[j] == (if j < i then s[j] else s[j + 1]);
    forall x | x in s && x != h ensures x in r {
      var j :| 0 <= j < |s| && s[j] == x;
      if j < i { assert r[j] == x; } else { assert j != i; assert r[j - 1] == x; }
    }
  }

  /** Splicing out an order the list does not hold (`indexOf` gives -1)
      drops the last order of the list instead. */
  lemma SplicedStale(s: seq<Handle>, h: Handle)
    requires h !in s && s != []
    ensures SpliceOne(s, IndexOf(s, h)) == s[..|s| - 1]
  {
  }

  /** The order a match names is the first order with the maker id in the
      level at the grouped price on the given side; there is none when that
      level is missing or holds no order with the id. */
  lemma MakerOfSpec(b: Book, maker: OrderId, side: Side, price: int)
    requires WellFormed(b)
    ensures var l := LevelAt(TreeOf(b, side), Group(price));
            && (MakerOf(b, maker, side, price).Some? <==>
                  l.Some? && exists j :: 0 <= j < |l.value.orders| && b.orders[l.value.orders[j]].id == maker)
            && (MakerOf(b, maker, side, price).Some? ==>
                  exists j :: 0 <= j < |l.value.orders| && MakerOf(b, maker, side, price).value == l.value.orders[j] &&
                    b.orders[l.value.orders[j]].id == maker &&
                    forall j' :: 0 <= j' < j ==> b.orders[l.value.orders[j']].id != maker)
  {
    var t := TreeOf(b, side);
    var f := Find(t, Group(price));
    if f.Some? {
      var i := f.value;
      LevelAtIndex(t, i);
      assert t[i] in t;
      var j := FirstWithId(b.orders, t[i].orders, maker);
      if j >= 0 {
        assert MakerOf(b, maker, side, price).value == t[i].orders[j];
      }
    }
  }

  /** `match` throws exactly when the maker order is not found. */
  lemma MatchedFails(b: Book, maker: OrderId, side: Side, price: int, size: int)
    requires WellFormed(b)
    ensures Matched(b, maker, side, price, size).Ok? <==> MakerOf(b, maker, side, price).Some?
  {
  }

  /** A fill that leaves a non-zero size only resizes the order object and
      points the index entry of its id at it. */
  lemma FilledPartial(b: Book, h: Handle, size: int)
    requires Located(b, h) && b.orders[h].size - size != 0
    ensures Filled(b, h, size) ==
              b.(orders := b.orders[h := b.orders[h].(size := b.orders[h].size - size)],
                 byId := b.byId[b.orders[h].id := h])
  {
  }

  /** A fill that leaves a zero size resizes the order object and removes
      it as by `remove`: its level at its own grouped price becomes
      `AfterRemoval` of it, and its id leaves the index. */
  lemma FilledFull(b: Book, h: Handle, size: int, side: Side, key: int, k: int)
    requires Located(b, h) && b.orders[h].size - size == 0
    requires side == b.orders[h].side && key == Group(b.orders[h].price)
    ensures var r := Filled(b, h, size);
            && r.orders == b.orders[h := b.orders[h].(size := 0)]
            && r.nextHandle == b.nextHandle
            && r.byId == b.byId - {b.orders[h].id}
            && TreeOf(r, Opposite(side)) == TreeOf(b, Opposite(side))
            && LevelAt(TreeOf(r, side), k) ==
                 if k == key then AfterRemoval(LevelAt(TreeOf(b, side), key).value, h)
                 else LevelAt(TreeOf(b, side), k)
  {
    var id := b.orders[h].id;
    var b' := Resized(b, h, 0);
    ResizedRemovable(b, h, size);
    assert Filled(b, h, size) == Removed(b', id).value;
    assert b'.byId[id] == h && b'.orders[h].side == side && Group(b'.orders[h].price) == key;
    assert TreeOf(b', side) == TreeOf(b, side);
    assert TreeOf(b', Opposite(side)) == TreeOf(b, Opposite(side));
    assert b'.byId - {id} == b.byId - {id};
    RemovedSpec(b', id, h, k);
  }

  /** Otherwise `match` fills the maker order `h`: found at the grouped
      price on the given side, it has that side and grouped price, and its
      size drops by exactly the matched size (`FilledPartial`,
      `FilledFull`). */
  lemma MatchedSpec(b: Book, maker: OrderId, side: Side, price: int, size: int, h: Handle)
    requires WellFormed(b) && MakerOf(b, maker, side, price) == Some(h)
    ensures Matched(b, maker, side, price, size) == Ok(Filled(b, h, size))
    ensures Located(b, h) && b.orders[h].id == maker
    ensures b.orders[h].side == side && Group(b.orders[h].price) == Group(price)
    ensures LevelAt(TreeOf(b, side), Group(price)).Some? && h in LevelAt(TreeOf(b, side), Group(price)).value.orders
  {
    MakerOfSpec(b, maker, side, price);
    var l := LevelAt(TreeOf(b, side), Group(price)).value;
    assert l in TreeOf(b, side);
  }

  /** `change` leaves the whole book unchanged when the price is missing,
      or the given side has no level at the grouped price, or the index
      lacks the id, or that level does not hold the indexed order.
      Otherwise it throws when the order's size is not the old size, and
      else sets that order's size to the new size and changes nothing
      else: not the index, not the trees, not any level's stored size. */
  lemma ChangedSpec(b: Book, id: OrderId, side: Side, price: Option<int>, newSize: int, oldSize: int)
    requires WellFormed(b)
    ensures var l := if price.Some? then LevelAt(TreeOf(b, side), Group(price.value)) else None;
            if l.None? || id !in b.byId || b.byId[id] !in l.value.orders then
              Changed(b, id, side, price, newSize, oldSize) == Ok(b)
            else
              var h := b.byId[id];
              Changed(b, id, side, price, newSize, oldSize) ==
                if b.orders[h].size != oldSize then AssertionError
                else Ok(b.(orders := b.orders[h := b.orders[h].(size := newSize)]))
  {
    if price.Some? {
      var t := TreeOf(b, side);
      var f := Find(t, Group(price.value));
      if f.Some? {
        LevelAtIndex(t, f.value);
        if id in b.byId {
          var h := b.byId[id];
          assert b.byId[b.orders[h].id := h] == b.byId;
        }
      }
    }
  }

  /** Every order a level of `t` holds has an identity of at least `n`. */
  predicate HandlesFrom(t: Tree, n: nat)
  {
    forall l, x :: l in t && x in l.orders ==> x >= n
  }

  /** No row of `rows` carries `id`. */
  predicate NotListed(rows: seq<Row>, id: OrderId)
  {
    forall i :: 0 <= i < |rows| ==> rows[i].id != id
  }

  /** The tree step of `add` files only the new identity. */
  lemma FiledHandles(t: Tree, key: int, h: Handle, size: int, n: nat)
    requires Ascending(t) && HandlesFrom(t, n) && h >= n
    ensures HandlesFrom(Filed(t, key, h, size), n)
  {
    var f := Find(t, key);
    if f.Some? {
      assert t[f.value] in t;
    }
  }

  /** One `add` keeps every stored order object and every other index
      entry, and files only the fresh identity. */
  lemma AddedKeeps(b: Book, row: Row, side: Side, n: nat)
    requires WellFormed(b) && n <= b.nextHandle
    ensures var r := Added(b, row.id, side, row.price, row.size);
            && r.nextHandle == b.nextHandle + 1
            && (forall h :: h in b.orders ==> h in r.orders && r.orders[h] == b.orders[h])
            && (forall id :: id in b.byId && id != row.id ==> id in r.byId && r.byId[id] == b.byId[id])
            && TreeOf(r, Opposite(side)) == TreeOf(b, Opposite(side))
            && (HandlesFrom(TreeOf(b, side), n) ==> HandlesFrom(TreeOf(r, side), n))
  {
    if HandlesFrom(TreeOf(b, side), n) {
      FiledHandles(TreeOf(b, side), Group(row.price), b.nextHandle, row.size, n);
    }
  }

  /** Adding rows one by one keeps every stored order object and every
      index entry of an id no row carries, takes one fresh identity per
      row, and files only fresh identities. */
  lemma {:induction false} AddAllSpec(b: Book, rows: seq<Row>, side: Side, n: nat)
    requires WellFormed(b) && n <= b.nextHandle
    ensures var r := AddAll(b, rows, side);
            && r.nextHandle == b.nextHandle + |rows|
            && (forall h :: h in b.orders ==> h in r.orders && r.orders[h] == b.orders[h])
            && (forall id :: id in b.byId && NotListed(rows, id) ==> id in r.byId && r.byId[id] == b.byId[id])
            && TreeOf(r, Opposite(side)) == TreeOf(b, Opposite(side))
            && (HandlesFrom(TreeOf(b, side), n) ==> HandlesFrom(TreeOf(r, side), n))
    decreases |rows|
  {
    if rows != [] {
      var row := rows[0];
      AddedWellFormed(b, row.id, side, row.price, row.size);
      AddedKeeps(b, row, side, n);
      AddAllSpec(Added(b, row.id, side, row.price, row.size), rows[1..], side, n);
      forall id | NotListed(rows, id) ensures NotListed(rows[1..], id) && id != row.id {
        forall i | 0 <= i < |rows[1..]| ensures rows[1..][i].id != id {
          assert rows[1..][i] == rows[i + 1];
        }
      }
    }
  }

  /** `state(book)` discards both trees but keeps the order store and every
      index entry of an id no snapshot row carries; such an entry now names
      an order object that no level holds, while every level holds only
      orders added from the snapshot. */
  lemma ReloadedSpec(b: Book, bids: seq<Row>, asks: seq<Row>, id: OrderId)
    requires WellFormed(b)
    ensures var r := Reloaded(b, bids, asks);
            && r.nextHandle == b.nextHandle + |bids| + |asks|
            && (forall h :: h in b.orders ==> h in r.orders && r.orders[h] == b.orders[h])
            && HandlesFrom(r.bids, b.nextHandle) && HandlesFrom(r.asks, b.nextHandle)
            && (id in b.byId && NotListed(bids, id) && NotListed(asks, id) ==>
                  id in r.byId && r.byId[id] == b.byId[id] && r.byId[id] < b.nextHandle)
  {
    var b0 := b.(bids := [], asks := []);
    AddAllSpec(b0, bids, Buy, b.nextHandle);
    var b1 := AddAll(b0, bids, Buy);
    AddAllSpec(b1, asks, Sell, b.nextHandle);
  }

  /** After `state(book)` an id that the index kept from before the reload
      (no snapshot row carries it) still names its old order object, and
      no level of that order's side holds it: removing the id then takes
      the stale path of `StaleRemoved`. */
  lemma RemovedAfterReload(b: Book, bids: seq<Row>, asks: seq<Row>, id: OrderId)
    requires WellFormed(b) && id in b.byId && NotListed(bids, id) && NotListed(asks, id)
    ensures var r := Reloaded(b, bids, asks);
            var h := b.byId[id];
            && id in r.byId && r.byId[id] == h && h in r.orders && r.orders[h] == b.orders[h]
            && forall l :: l in TreeOf(r, b.orders[h].side) ==> h !in l.orders
  {
    ReloadedSpec(b, bids, asks, id);
    var r := Reloaded(b, bids, asks);
    var h := b.byId[id];
    assert HandlesFrom(TreeOf(r, b.orders[h].side), b.nextHandle);
  }

  /** Removing an indexed id whose order its level does not hold drops
      that level's last order. */
  lemma StaleRemoved(r: Book, id: OrderId, h: Handle, k: int)
    requires WellFormed(r) && id in r.byId && r.byId[id] == h
    requires var l := LevelAt(TreeOf(r, r.orders[h].side), Group(r.orders[h].price));
             l.Some? && h !in l.value.orders
    ensures var side := r.orders[h].side;
            var key := Group(r.orders[h].price);
            var l := LevelAt(TreeOf(r, side), key).value;
            && Removed(r, id).Ok?
            && LevelAt(TreeOf(Removed(r, id).value, side), key) ==
                 (if |l.orders| == 1 then None else Some(l.(orders := l.orders[..|l.orders| - 1])))
            && (k != key ==> LevelAt(TreeOf(Removed(r, id).value, side), k) == LevelAt(TreeOf(r, side), k))
  {
    var side := r.orders[h].side;
    var key := Group(r.orders[h].price);
    var l := LevelAt(TreeOf(r, side), key).value;
    assert l in TreeOf(r, side);
    RemovedSpec(r, id, h, k);
    RemovedSpec(r, id, h, key);
    SplicedStale(l.orders, h);
  }

  /** `remove` of an id whose order its level still holds takes out exactly
      that order: the other orders keep their relative order, the stored
      size stays, and the level goes only when the order was its last. */
  lemma RemovedIndexed(b: Book, id: OrderId, h: Handle)
    requires WellFormed(b) && id in b.byId && b.byId[id] == h
    requires var l := LevelAt(TreeOf(b, b.orders[h].side), Group(b.orders[h].price));
             l.Some? && h in l.value.orders
    ensures var side := b.orders[h].side;
            var key := Group(b.orders[h].price);
            var l := LevelAt(TreeOf(b, side), key).value;
            var i := IndexOf(l.orders, h);
            && Removed(b, id).Ok?
            && LevelAt(TreeOf(Removed(b, id).value, side), key) ==
                 (if l.orders == [h] then None
                  else Some(Level(key, l.size, l.orders[..i] + l.orders[i + 1..])))
  {
    var side := b.orders[h].side;
    var key := Group(b.orders[h].price);
    var l := LevelAt(TreeOf(b, side), key).value;
    assert l in TreeOf(b, side);
    SplicedIndexed(l.orders, h);
    RemovedSpec(b, id, h, key);
  }
}
