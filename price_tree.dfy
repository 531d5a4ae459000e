/** One side of the order book: the price levels, kept in ascending order of
    grouped price as the red-black tree with the ascending comparator keeps
    them (`this._bids`, `this._asks`).  Bids are read from the end, asks from
    the start. */
module PriceTree {
  import opened Wrappers

  /** The identity of an order object; the levels and the id index refer to
      the same order through it. */
  type Handle = nat

  /** A tree node: the grouped price, the stored aggregate size and the orders
      filed at that price, in arrival order. */
  datatype Level = Level(price: int, size: int, orders: seq<Handle>)

  type Tree = seq<Level>

  /** What the tree's comparator guarantees: keys strictly ascending. */
  predicate Ascending(t: Tree)
  {
    forall i, j :: 0 <= i < j < |t| ==> t[i].price < t[j].price
  }

  /** The number of levels whose price is below `k`: where a level of price
      `k` is, or would be inserted. */
  function Position(t: Tree, k: int): (i: nat)
    ensures i <= |t|
    ensures forall j :: 0 <= j < i ==> t[j].price < k
    ensures Ascending(t) ==> forall j :: i <= j < |t| ==> k <= t[j].price
  {
    if t == [] || k <= t[0].price then 0 else 1 + Position(t[1..], k)
  }

  /** Any split point with smaller prices before it and the others after it
      is the position. */
  lemma {:induction false} PositionUnique(t: Tree, k: int, i: nat)
    requires i <= |t|
    requires forall j :: 0 <= j < i ==> t[j].price < k
    requires forall j :: i <= j < |t| ==> k <= t[j].price
    ensures i == Position(t, k)
  {
    if t != [] && t[0].price < k {
      assert 0 < i;
      PositionUnique(t[1..], k, i - 1);
    }
  }

  /** `tree.find({price: k})`: the index of the level keyed `k`, if any. */
  function Find(t: Tree, k: int): (r: Option<nat>)
    requires Ascending(t)
    ensures r.Some? ==> r.value < |t| && t[r.value].price == k
    ensures r.None? ==> forall j :: 0 <= j < |t| ==> t[j].price != k
  {
    var i := Position(t, k);
    if i < |t| && t[i].price == k then Some(i) else None
  }

  /** Keys are unique, so the level found for a key is the one holding it. */
  lemma FindAt(t: Tree, j: nat)
    requires Ascending(t) && j < |t|
    ensures Find(t, t[j].price) == Some(j)
  {
  }

  /** The level keyed `k`, if any. */
  function LevelAt(t: Tree, k: int): (r: Option<Level>)
    requires Ascending(t)
    ensures r.Some? <==> exists j :: 0 <= j < |t| && t[j].price == k
    ensures r.Some? ==> r.value in t && r.value.price == k
  {
    match Find(t, k)
    case Some(i) => Some(t[i])
    case None => None
  }

  /** The level at index `j` is the one `LevelAt` finds under its key. */
  lemma LevelAtIndex(t: Tree, j: nat)
    requires Ascending(t) && j < |t|
    ensures LevelAt(t, t[j].price) == Some(t[j])
  {
    FindAt(t, j);
  }

  /** `tree.insert(node)` of a node whose key is not in the tree. */
  function Insert(t: Tree, l: Level): (r: Tree)
    requires Ascending(t) && Find(t, l.price).None?
    ensures Ascending(r) && |r| == |t| + 1
    ensures forall x :: x in r <==> x == l || x in t
  {
    var i := Position(t, l.price);
    t[..i] + [l] + t[i..]
  }

  /** After an insertion the new node is found under its key and every
      other key finds what it found before. */
  lemma InsertLevelAt(t: Tree, l: Level, k: int)
    requires Ascending(t) && Find(t, l.price).None?
    ensures LevelAt(Insert(t, l), k) == if k == l.price then Some(l) else LevelAt(t, k)
  {
    var i := Position(t, l.price);
    var r := Insert(t, l);
    if k == l.price {
      assert r[i] == l;
      LevelAtIndex(r, i);
    } else if LevelAt(t, k).Some? {
      var j :| 0 <= j < |t| && t[j].price == k;
      LevelAtIndex(t, j);
      var j' := InsertedIndex(t, i, l, j);
      LevelAtIndex(r, j');
    } else {
      InsertedAbsent(t, i, l, k);
    }
  }

  /** Where the level at index `j` sits once `l` is inserted at `i`. */
  lemma InsertedIndex(t: Tree, i: nat, l: Level, j: nat) returns (j': nat)
    requires i <= |t| && j < |t|
    ensures j' < |t| + 1 && (t[..i] + [l] + t[i..])[j'] == t[j]
  {
    j' := if j < i then j else j + 1;
  }

  /** Inserting a level of another key brings no level of key `k`. */
  lemma InsertedAbsent(t: Tree, i: nat, l: Level, k: int)
    requires i <= |t| && l.price != k
    requires forall j :: 0 <= j < |t| ==> t[j].price != k
    ensures forall j :: 0 <= j < |t| + 1 ==> (t[..i] + [l] + t[i..])[j].price != k
  {
    var r := t[..i] + [l] + t[i..];
    forall j | 0 <= j < |r| ensures r[j].price != k {
      if j < i { assert r[j] == t[j]; }
      else if j > i { assert r[j] == t[j - 1]; }
    }
  }

  /** Overwrites the node at index `i` with a node of the same key. */
  function Replace(t: Tree, i: nat, l: Level): (r: Tree)
    requires Ascending(t) && i < |t| && l.price == t[i].price
    ensures Ascending(r) && |r| == |t|
    ensures forall x :: x in r ==> x == l || x in t
  {
    t[i := l]
  }

  /** After a replacement the new node is found under its key and every
      other key finds what it found before. */
  lemma ReplaceLevelAt(t: Tree, i: nat, l: Level, k: int)
    requires Ascending(t) && i < |t| && l.price == t[i].price
    ensures LevelAt(Replace(t, i, l), k) == if k == l.price then Some(l) else LevelAt(t, k)
  {
    var r := Replace(t, i, l);
    if k == l.price {
      LevelAtIndex(r, i);
    } else if LevelAt(t, k).Some? {
      var j :| 0 <= j < |t| && t[j].price == k;
      LevelAtIndex(t, j);
      LevelAtIndex(r, j);
    }
  }

  /** `tree.remove(node)` of the node at index `i`. */
  function Delete(t: Tree, i: nat): (r: Tree)
    requires Ascending(t) && i < |t|
    ensures Ascending(r) && |r| == |t| - 1
    ensures forall x :: x in r ==> x in t
  {
    var r := t[..i] + t[i + 1..];
    assert forall j :: 0 <= j < |r| ==> r[j] == (if j < i then t[j] else t[j + 1]);
    r
  }

  /** After a deletion the key of the deleted node finds nothing and every
      other key finds what it found before. */
  lemma DeleteLevelAt(t: Tree, i: nat, k: int)
    requires Ascending(t) && i < |t|
    ensures LevelAt(Delete(t, i), k) == if k == t[i].price then None else LevelAt(t, k)
  {
    var r := Delete(t, i);
    if k != t[i].price && LevelAt(t, k).Some? {
      var j :| 0 <= j < |t| && t[j].price == k;
      LevelAtIndex(t, j);
      var j' := if j < i then j else j - 1;
      assert r[j'] == t[j];
      LevelAtIndex(r, j');
    } else {
      forall j | 0 <= j < |r| ensures r[j].price != k {
        if j < i { assert r[j] == t[j]; } else { assert r[j] == t[j + 1]; }
      }
    }
  }

  /** `tree.find` as the red-black tree performs it: a logarithmic search
      over the ordered keys.  Reports whether the key is present and where
      it is or would go. */
  method Search(t: Tree, k: int) returns (found: bool, i: nat)
    requires Ascending(t)
    ensures i == Position(t, k)
    ensures found <==> i < |t| && t[i].price == k
    ensures found <==> Find(t, k).Some?
  {
    var lo, hi := 0, |t|;
    while lo < hi
      invariant 0 <= lo <= hi <= |t|
      invariant forall j :: 0 <= j < lo ==> t[j].price < k
      invariant forall j :: hi <= j < |t| ==> k <= t[j].price
    {
      var mid := (lo + hi) / 2;
      if t[mid].price < k {
        lo := mid + 1;
      } else {
        hi := mid;
      }
    }
    PositionUnique(t, k, lo);
    i := lo;
    found := i < |t| && t[i].price == k;
  }
}
