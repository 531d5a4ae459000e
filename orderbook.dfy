/** The order book of one product (lib/orderbook.js): the id index and the
    two price trees are fields that each operation updates in place.  Every
    method is proved to leave the book in the state its specification
    function in `OrderbookSpec` gives. */
module Orderbook {
  import opened Wrappers
  import opened Grouping
  import opened PriceTree
  import opened OrderbookSpec

  class Orderbook {
    /** The order objects, by identity. */
    var orders: map<Handle, Order>
    var nextHandle: nat
    /** `_ordersByID`. */
    var ordersById: map<OrderId, Handle>
    /** `_bids` and `_asks`. */
    var bids: Tree
    var asks: Tree

    function Value(): Book
      reads this
    {
      Book(orders, nextHandle, ordersById, bids, asks)
    }

    predicate Valid()
      reads this
    {
      WellFormed(Value())
    }

    constructor ()
      ensures Valid() && Value() == Empty
    {
      orders, nextHandle, ordersById := map[], 0, map[];
      bids, asks := [], [];
    }

    /** `_getTree(side)`. */
    function TreeFor(side: Side): Tree
      reads this
    {
      if side == Buy then bids else asks
    }

    /** Writes back the tree of `side`. */
    method SetTree(side: Side, t: Tree)
      modifies this
      ensures Value() == WithTree(old(Value()), side, t)
    {
      if side == Buy { bids := t; } else { asks := t; }
    }

    /** `get(orderId)`: the order object the index holds for the id. */
    function Get(id: OrderId): (r: Option<Order>)
      reads this
      requires Valid()
      ensures r.Some? <==> id in ordersById
      ensures r.Some? ==> r.value.id == id && r.value == orders[ordersById[id]]
    {
      if id in ordersById then Some(orders[ordersById[id]]) else None
    }

    /** `add(order)`. */
    method Add(id: OrderId, side: Side, price: int, size: int)
      requires Valid()
      modifies this
      ensures Value() == Added(old(Value()), id, side, price, size)
      ensures Valid()
    {
      ghost var b := Value();
      AddedWellFormed(b, id, side, price, size);
      var h := nextHandle;
      var tree := FileOrder(TreeFor(side), Group(price), h, size);
      SetTree(side, tree);
      orders := orders[h := Order(id, side, price, size)];
      nextHandle := nextHandle + 1;
      ordersById := ordersById[id := h];
      assert Value() == Added(b, id, side, price, size);
    }

    /** `remove(orderId)`; `ok` is false when the `assert` throws. */
    method Remove(id: OrderId) returns (ok: bool)
      requires Valid()
      modifies this
      ensures Valid()
      ensures ok == Removed(old(Value()), id).Ok?
      ensures Value() == if ok then Removed(old(Value()), id).value else old(Value())
    {
      ghost var b := Value();
      RemovedWellFormed(b, id);
      if id !in ordersById {
        return true;
      }
      var order := orders[ordersById[id]];
      var tree := TreeFor(order.side);
      var found, i := Search(tree, Group(order.price));
      if !found {
        return false;
      }
      var list := SpliceOne(tree[i].orders, IndexOf(tree[i].orders, ordersById[id]));
      if list == [] {
        tree := Delete(tree, i);
      } else {
        tree := Replace(tree, i, tree[i].(orders := list));
      }
      SetTree(order.side, tree);
      ordersById := ordersById - {order.id};
      ok := true;
    }

    /** `order.size = size` on the shared order object, followed by
        `_ordersByID[order.id] = order`. */
    method SetSize(h: Handle, size: int)
      requires Valid() && h in orders
      modifies this
      ensures Valid()
      ensures Value() == Resized(old(Value()), h, size)
    {
      orders := orders[h := orders[h].(size := size)];
      ordersById := ordersById[orders[h].id := h];
    }

    /** The lookups of `match`: `tree.find` of the node at the grouped price,
        then `node.orders.find` of the first order with the maker id. */
    method FindMaker(maker: OrderId, side: Side, price: int) returns (h: Option<Handle>)
      requires Valid()
      ensures h == MakerOf(Value(), maker, side, price)
    {
      var tree := TreeFor(side);
      var found, i := Search(tree, Group(price));
      if !found {
        return None;
      }
      assert tree[i] in tree;
      var j := FirstWithId(orders, tree[i].orders, maker);
      if j < 0 {
        return None;
      }
      h := Some(tree[i].orders[j]);
    }

    /** `match(match)`; `ok` is false when an `assert` throws. */
    method Match(maker: OrderId, side: Side, price: int, size: int) returns (ok: bool)
      requires Valid()
      modifies this
      ensures Valid()
      ensures ok == Matched(old(Value()), maker, side, price, size).Ok?
      ensures Value() == if ok then Matched(old(Value()), maker, side, price, size).value else old(Value())
    {
      ghost var b := Value();
      var found := FindMaker(maker, side, price);
      if found.None? {
        return false;
      }
      var h := found.value;
      Fill(h, size);
      ok := true;
    }

    /** The update step of `match` on the maker order `h`: `size` is taken
        off its size, and an order whose size is now zero is removed. */
    method Fill(h: Handle, size: int)
      requires Located(Value(), h)
      modifies this
      ensures Valid()
      ensures Value() == Filled(old(Value()), h, size)
    {
      var left := orders[h].size - size;
      SetSize(h, left);
      if left == 0 {
        var removed := Remove(orders[h].id);
      }
    }

    /** `change(change)`; `ok` is false when `assert.equal` throws. */
    method Change(id: OrderId, side: Side, price: Option<int>, newSize: int, oldSize: int)
      returns (ok: bool)
      requires Valid()
      modifies this
      ensures Valid()
      ensures ok == Changed(old(Value()), id, side, price, newSize, oldSize).Ok?
      ensures Value() == if ok then Changed(old(Value()), id, side, price, newSize, oldSize).value
                         else old(Value())
    {
      if price.None? {
        return true;
      }
      var order := Get(id);
      var tree := TreeFor(side);
      var found, i := Search(tree, Group(price.value));
      if !found || order.None? || IndexOf(tree[i].orders, ordersById[id]) < 0 {
        return true;
      }
      var h := tree[i].orders[IndexOf(tree[i].orders, ordersById[id])];
      if orders[h].size != oldSize {
        return false;
      }
      SetSize(h, newSize);
      ok := true;
    }

    /** `state(book)`: reloads the trees from a snapshot. */
    method Load(bidRows: seq<Row>, askRows: seq<Row>)
      requires Valid()
      modifies this
      ensures Valid()
      ensures Value() == Reloaded(old(Value()), bidRows, askRows)
    {
      bids, asks := [], [];
      ghost var b0 := Value();
      var k := 0;
      while k < |bidRows|
        invariant 0 <= k <= |bidRows|
        invariant Valid()
        invariant AddAll(Value(), bidRows[k..], Buy) == AddAll(b0, bidRows, Buy)
      {
        assert bidRows[k..][1..] == bidRows[k + 1..];
        Add(bidRows[k].id, Buy, bidRows[k].price, bidRows[k].size);
        k := k + 1;
      }
      ghost var b1 := Value();
      k := 0;
      while k < |askRows|
        invariant 0 <= k <= |askRows|
        invariant Valid()
        invariant AddAll(Value(), askRows[k..], Sell) == AddAll(b1, askRows, Sell)
      {
        assert askRows[k..][1..] == askRows[k + 1..];
        Add(askRows[k].id, Sell, askRows[k].price, askRows[k].size);
        k := k + 1;
      }
    }

    /** `state()` / `state(undefined, limit)`: at most `limit` levels per side
        (20 when the limit is absent, written 0), bids from the highest
        price down (`reach`), asks from the lowest up (`each`), each entry
        carrying the level's first order's id and side and the level's
        grouped price and stored size. */
    method State(limit: int) returns (r: Summary)
      requires Valid()
      ensures |r.bids| == Taken(limit, |bids|) && |r.asks| == Taken(limit, |asks|)
      ensures forall i :: 0 <= i < |r.bids| ==>
                bids[|bids| - 1 - i] in bids && r.bids[i] == EntryOf(Value(), bids[|bids| - 1 - i])
      ensures forall i :: 0 <= i < |r.asks| ==> asks[i] in asks && r.asks[i] == EntryOf(Value(), asks[i])
      ensures forall i, j :: 0 <= i < j < |r.bids| ==> r.bids[i].price > r.bids[j].price
      ensures forall i, j :: 0 <= i < j < |r.asks| ==> r.asks[i].price < r.asks[j].price
    {
      var lim := DefaultedLimit(limit);
      var out: seq<Entry> := [];
      var k := |bids|;
      while k > 0
        invariant 0 <= k <= |bids|
        invariant |out| == Taken(limit, |bids| - k)
        invariant forall i :: 0 <= i < |out| ==>
                    bids[|bids| - 1 - i] in bids && out[i] == EntryOf(Value(), bids[|bids| - 1 - i])
      {
        k := k - 1;
        if |out| < lim {
          assert bids[k] in bids;
          out := out + [EntryOf(Value(), bids[k])];
        }
      }
      var outAsks: seq<Entry> := [];
      k := 0;
      while k < |asks|
        invariant 0 <= k <= |asks|
        invariant |outAsks| == Taken(limit, k)
        invariant forall i :: 0 <= i < |outAsks| ==> asks[i] in asks && outAsks[i] == EntryOf(Value(), asks[i])
      {
        if |outAsks| < lim {
          assert asks[k] in asks;
          outAsks := outAsks + [EntryOf(Value(), asks[k])];
        }
        k := k + 1;
      }
      r := Summary(out, outAsks);
    }
  }

  /** The node handling of `add`: find the node at the grouped price, create
      and insert it with the order's size or add the order's size to it, then
      push the order onto its list. */
  method FileOrder(tree: Tree, treePrice: int, h: Handle, size: int) returns (t: Tree)
    requires Ascending(tree)
    ensures t == Filed(tree, treePrice, h, size)
  {
    var found, i := Search(tree, treePrice);
    if !found {
      t := tree[..i] + [Level(treePrice, size, [])] + tree[i..];
    } else {
      t := tree[i := tree[i].(size := tree[i].size + size)];
    }
    FiledSteps(tree, treePrice, h, size, found, i);
    t := t[i := t[i].(orders := t[i].orders + [h])];
  }

  /** The node handling of `add` step by step (create or grow the node,
      then push the order) is the tree step `Filed`. */
  lemma FiledSteps(t: Tree, key: int, h: Handle, size: int, found: bool, i: nat)
    requires Ascending(t) && i == Position(t, key) && (found <==> Find(t, key).Some?)
    ensures var t1 := if !found then t[..i] + [Level(key, size, [])] + t[i..]
                      else t[i := t[i].(size := t[i].size + size)];
            i < |t1| && t1[i := t1[i].(orders := t1[i].orders + [h])] == Filed(t, key, h, size)
  {
    if !found {
      var x := Level(key, size, []);
      var t1 := t[..i] + [x] + t[i..];
      assert t1[i] == x;
      assert t1[i].(orders := t1[i].orders + [h]) == Level(key, size, [h]);
      InsertThenSet(t, i, x, Level(key, size, [h]));
      assert Filed(t, key, h, size) == Insert(t, Level(key, size, [h]));
      assert Insert(t, Level(key, size, [h])) == t[..i] + [Level(key, size, [h])] + t[i..];
    }
  }

  /** Inserting an element and then overwriting it is inserting the second. */
  lemma InsertThenSet<T>(s: seq<T>, i: nat, x: T, y: T)
    requires i <= |s|
    ensures (s[..i] + [x] + s[i..])[i := y] == s[..i] + [y] + s[i..]
  {
    var a, c := (s[..i] + [x] + s[i..])[i := y], s[..i] + [y] + s[i..];
    assert |a| == |c|;
    forall j | 0 <= j < |a| ensures a[j] == c[j] {
      if j < i { assert a[j] == s[j]; } else if j > i { assert a[j] == s[j - 1]; }
    }
  }
}
