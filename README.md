# Order book synchronisation of gdax-node, modelled in Dafny

gdax-node keeps a local level-3 order book for each product of an exchange
feed. The model covers the two classes that do this.

- **`Orderbook`** (lib/orderbook.js) holds one product's resting orders in
  two ordered trees of price levels: bids and asks.
  - A level's key is the order's price grouped to whole currency units, so
    one level can hold orders of several raw prices.
  - A level keeps its orders in arrival order and a stored aggregate size.
  - An index maps each order id to the shared order object.
  - The operations are `add`, `remove`, `match` and `change` (the feed
    events `open`, `done`, `match` and `change`).
  - `state(book)` reloads the trees from a snapshot. `state()` projects the
    top levels of each side.
- **`OrderbookSync`** (lib/orderbook_sync.js) keeps one book per product
  consistent with the feed.
  - Each product has a sequence watermark: -2 before the first load, -1
    while a snapshot is awaited, otherwise the sequence number of the last
    message applied.
  - It also has a queue of the messages received while no snapshot is
    loaded.
  - A message at or below the watermark is skipped.
  - A message more than one past the watermark starts a resync.
  - The next message in sequence moves the watermark and is applied to the
    book.
  - A snapshot reloads the book, sets the watermark to the snapshot's
    sequence number, replays the queue and then empties it.

## How the model is built

- Decimals are integers in fixed-point units of 10^-8, so sums,
  differences and comparisons are exact.
  - `Grouping.Group` is the grouping expression of lib/orderbook.js:85.
- A tree is an ascending `seq<Level>` ordered by grouped price
  (`PriceTree`).
  - `PriceTree.Search` is the logarithmic lookup.
  - Bids are read from the end, asks from the start.
- JavaScript order objects are shared between the index and the level
  lists.
  - The book keeps them in a store keyed by identity.
  - A change of an order's size is therefore seen through both.
  - A stale index entry names an object that no level holds, as in the
    source.
- `OrderbookSpec` gives each book operation as a function from the old book
  to the new one.
  - A failed `assert` is the outcome `AssertionError`, and the book is then
    unchanged. Each `assert` that can fail comes before the operation's
    first change.
  - The one exception is the `assert(node)` of `remove` when `match` calls
    it at lib/orderbook.js:143, after its write at :137. That `assert` is
    proved never to fail on this path (`OrderbookSpec.ResizedRemovable`).
  - The class `Orderbook.Orderbook` has the source's fields, and each of its
    methods is proved to end in the state its function gives.
  - `OrderbookProperties` proves what each operation does, level by level.
- `SyncSpec` gives the synchroniser as a value and each reaction as a
  function:
  - `Step` for `processMessage`;
  - `Landed` for the `process` callback on a snapshot;
  - `FetchFailed` for `problems`.
- `Consistent` is the invariant every reaction keeps:
  - each book is well formed;
  - queues hold their own product's messages;
  - a snapshot request is in flight only for a resyncing product, and at
    most one per product.
- The class `OrderbookSync.OrderbookSync` has the fields `sequences`,
  `queues` and `books` as maps. They are views of a ghost `SyncSpec.Sync`,
  and every method is proved to take that state to the specification's
  next state.
- `SyncProperties` proves what the synchroniser promises:
  - the watermark rules;
  - other products are not affected;
  - messages a snapshot already covers are skipped;
  - the later messages are applied in order, so the landed book is the
    snapshot with the later events applied;
  - the queue is empty after a landing.

### Behaviour worth knowing

The model follows the code as written in each of these cases.

- A snapshot is loaded into the same book object; no new book is created.
  - The order store and the id index survive the reload
    (`OrderbookProperties.ReloadedSpec`).
  - `remove` of an id that only the old index holds then finds no position
    in its level's list. `splice(-1, 1)` drops the level's last order
    instead (`OrderbookProperties.RemovedAfterReload` and
    `OrderbookProperties.StaleRemoved`).
- A size mismatch in `change` is fatal: `assert.equal` throws
  (`SyncProperties.StepNext` and `OrderbookSpec.Changed`).
- `remove` never adjusts the level's stored size.
  - The size a `state()` entry reports is the sum of the sizes of every
    order added to the level since the level was created. That includes
    orders since removed or filled.
- At watermark -2 the first message is queued. The `loadOrderbook` that
  follows immediately empties the queue again (`SyncProperties.StepFirst`).
- When a snapshot request fails, the product stays at -1 for good.
  - Its messages are only queued from then on (`SyncProperties.ResyncStuck`).
- A message of an untracked product changes nothing; the `loadOrderbook`
  it reaches returns at once (`SyncProperties.StepUntracked`).
- The comment at lib/orderbook.js:13 says 1234.567 groups to 1230.
  - With `grouping = 8` it groups to 1235 (`Grouping.GroupExample`).

## Model

| member | source | states |
|---|---|---|
| Grouping.Group | lib/orderbook.js:85 | the grouped price is a multiple of one currency unit and lies within half a unit of the price (ties away from zero) |
| Grouping.GroupIsNearest | lib/orderbook.js:85 | any multiple whose rounding window holds a non-negative price is its group |
| Grouping.GroupIsNearestNegative | lib/orderbook.js:85 | the same for a negative price |
| Grouping.GroupIdempotent | lib/orderbook.js:85 | grouping a grouped price changes nothing |
| Grouping.GroupMonotonic | lib/orderbook.js:85 | grouping preserves the order of prices |
| Grouping.GroupExample | lib/orderbook.js:13 | 1234.567 is filed under 1235 |
| PriceTree.Position | lib/orderbook.js:86 | the split point between keys below and keys at or above `k` |
| PriceTree.PositionUnique | lib/orderbook.js:86 | any such split point is the position |
| PriceTree.Find | lib/orderbook.js:86 | finds the index of the level keyed `k`, or reports that no level has that key |
| PriceTree.FindAt | lib/orderbook.js:86 | keys are unique: the key of level `j` finds `j` |
| PriceTree.LevelAt | lib/orderbook.js:86 | the level keyed `k` exists exactly when some level has that key |
| PriceTree.LevelAtIndex | lib/orderbook.js:86 | the level at an index is the one found under its key |
| PriceTree.Insert | lib/orderbook.js:94 | inserting a new key keeps the keys ascending and adds exactly that level |
| PriceTree.InsertLevelAt | lib/orderbook.js:94 | after `insert` the new key finds the new level and every other key finds what it found before |
| PriceTree.Replace | lib/orderbook.js:96 | overwriting a level with one of the same key keeps the tree ascending |
| PriceTree.ReplaceLevelAt | lib/orderbook.js:96 | after the overwrite only that key finds something different |
| PriceTree.Delete | lib/orderbook.js:118-120 | `tree.remove` keeps the tree ascending and one level shorter |
| PriceTree.DeleteLevelAt | lib/orderbook.js:118-120 | after `tree.remove` the deleted key finds nothing and every other key what it found before |
| PriceTree.Search | lib/orderbook.js:86 | the binary search returns the position of `k` and reports found exactly when `Find` does |
| OrderbookSpec.TreeOf | lib/orderbook.js:16-18 | `_getTree`: the bids for `buy`, the asks for any other side |
| OrderbookSpec.WithTree | lib/orderbook.js:16-18 | storing a tree for one side sets that side only and keeps the order store and the index |
| OrderbookSpec.WellFormed | lib/orderbook.js:7-14 | the book's invariant: identities below the next fresh one, each index entry names an order with that id, trees ascending, every level non-empty, duplicate-free, of its side and its grouped price |
| OrderbookSpec.Added | lib/orderbook.js:76-101 | `add`: one fresh order object, which `get(id)` then returns; the other side untouched (level by level in `AddedSpec`) |
| OrderbookSpec.Filed | lib/orderbook.js:84-99 | the tree step of `add` keeps the tree ascending and adds at most one level (level by level in `FiledLevelAt`) |
| OrderbookSpec.Removed | lib/orderbook.js:103-123 | `remove`: an unindexed id changes nothing; a completed removal keeps the order store and unindexes the id (level by level in `RemovedSpec`) |
| OrderbookSpec.Matched | lib/orderbook.js:125-145 | `match` completes exactly when the level and the maker order exist (the fill in `MatchedSpec`) |
| OrderbookSpec.Changed | lib/orderbook.js:147-173 | `change`: a missing price changes nothing, and no tree or level changes (which order's size changes in `ChangedSpec`) |
| OrderbookSpec.IndexOf | lib/orderbook.js:116 | `indexOf`: the first position of the order, or -1 exactly when it is absent |
| OrderbookSpec.SpliceOne | lib/orderbook.js:116 | `splice(i, 1)` removes one element and keeps the list free of duplicates |
| OrderbookSpec.FirstWithId | lib/orderbook.js:133 | `orders.find`: the first position whose order has the id, or -1 when none has it |
| OrderbookSpec.MakerOf | lib/orderbook.js:128-135 | the maker order found is stored, has the maker id and sits in a level at its grouped price |
| OrderbookSpec.Resized | lib/orderbook.js:137-138 | resizing the shared order object keeps the book well formed |
| OrderbookSpec.Filled | lib/orderbook.js:137-144 | a fill keeps the book well formed |
| OrderbookSpec.ResizedRemovable | lib/orderbook.js:142-144 | the `remove` inside `match` never hits its `assert` |
| OrderbookSpec.AddedWellFormed | lib/orderbook.js:76-101 | `add` keeps the book well formed |
| OrderbookSpec.RemovedWellFormed | lib/orderbook.js:103-123 | `remove` keeps the book well formed |
| OrderbookSpec.AddAll | lib/orderbook.js:25-41 | adding snapshot rows keeps the book well formed |
| OrderbookSpec.Reloaded | lib/orderbook.js:22-41 | `state(book)` leaves a well formed book |
| OrderbookSpec.DefaultedLimit | lib/orderbook.js:21 | `limit \|\| 20`: an absent limit means 20, any other limit stays |
| OrderbookSpec.Taken | lib/orderbook.js:44-67 | a projection keeps as many levels as the limit allows, none for a negative limit |
| OrderbookSpec.EntryOf | lib/orderbook.js:48-53 | an entry carries the first order's id and side and the level's price and stored size |
| OrderbookProperties.FiledLevelAt | lib/orderbook.js:84-99 | the tree step of `add` grows or creates the level at the grouped price and leaves every other level alone |
| OrderbookProperties.AddedSpec | lib/orderbook.js:76-101 | `add` stores a fresh order object, indexes it under its id, appends it to the level at its grouped price (adding its size), and changes nothing else |
| OrderbookProperties.RemovedAbsent | lib/orderbook.js:104-108 | `remove` of an id the index lacks changes nothing |
| OrderbookProperties.RemovedSpec | lib/orderbook.js:103-123 | `remove` throws exactly when no level exists at the order's grouped price; otherwise it splices the order out, drops an emptied level, unindexes the id, keeps the stored size and changes nothing else |
| OrderbookProperties.SplicedIndexed | lib/orderbook.js:116 | splicing out a held order removes exactly that order and keeps the others in order |
| OrderbookProperties.SplicedStale | lib/orderbook.js:116 | splicing out an order the list lacks drops its last element |
| OrderbookProperties.RemovedIndexed | lib/orderbook.js:103-123 | removing an order its level holds takes out exactly that order |
| OrderbookProperties.MakerOfSpec | lib/orderbook.js:128-135 | the maker found is the first order with the maker id in the level at the grouped price |
| OrderbookProperties.MatchedFails | lib/orderbook.js:131-135 | `match` throws exactly when the level or the maker order is missing |
| OrderbookProperties.MatchedSpec | lib/orderbook.js:125-145 | otherwise `match` fills the maker order, which has that side and grouped price |
| OrderbookProperties.FilledPartial | lib/orderbook.js:137-138 | a partial fill only lowers the shared order's size and re-points its index entry |
| OrderbookProperties.FilledFull | lib/orderbook.js:137-144 | a fill to zero also removes the order from its level and the index |
| OrderbookProperties.ChangedSpec | lib/orderbook.js:147-173 | `change` does nothing without a price, a level, an indexed id or the order in that level; otherwise it throws on a size mismatch and else sets only that order's size |
| OrderbookProperties.FiledHandles | lib/orderbook.js:84-99 | the tree step of `add` files only the new order |
| OrderbookProperties.AddedKeeps | lib/orderbook.js:76-101 | one `add` keeps every stored order and every other index entry |
| OrderbookProperties.AddAllSpec | lib/orderbook.js:25-41 | adding snapshot rows keeps all stored orders and the index entries of ids no row carries |
| OrderbookProperties.ReloadedSpec | lib/orderbook.js:22-41 | `state(book)` keeps the old order store and index while every level holds only snapshot orders |
| OrderbookProperties.RemovedAfterReload | lib/orderbook.js:22-41 | after a reload an id kept from before still names its old order object, which no level of its side holds |
| OrderbookProperties.StaleRemoved | lib/orderbook.js:103-123 | removing an indexed id whose order its level does not hold drops that level's last order instead, deleting the level if it had one order |
| Orderbook.Orderbook.constructor | lib/orderbook.js:7-14 | a new book is empty |
| Orderbook.Orderbook.SetTree | lib/orderbook.js:16-18 | writes back the tree of a side |
| Orderbook.Orderbook.Get | lib/orderbook.js:72-74 | `get` finds an order exactly when its id is indexed, and returns the indexed object |
| Orderbook.Orderbook.Add | lib/orderbook.js:76-101 | the book becomes `Added` of the old book |
| Orderbook.Orderbook.Remove | lib/orderbook.js:103-123 | fails exactly when `Removed` throws; otherwise the book becomes its result |
| Orderbook.Orderbook.SetSize | lib/orderbook.js:137-138 | the shared order object takes the size, seen from the index and the level |
| Orderbook.Orderbook.FindMaker | lib/orderbook.js:128-135 | returns the maker order `MakerOf` names |
| Orderbook.Orderbook.Match | lib/orderbook.js:125-145 | fails exactly when `Matched` throws; otherwise the book becomes its result |
| Orderbook.Orderbook.Fill | lib/orderbook.js:137-144 | the book becomes `Filled` of the old book |
| Orderbook.Orderbook.Change | lib/orderbook.js:147-173 | fails exactly when `Changed` throws; otherwise the book becomes its result |
| Orderbook.Orderbook.Load | lib/orderbook.js:22-41 | the loops of `state(book)` leave the book `Reloaded` from the snapshot |
| Orderbook.Orderbook.State | lib/orderbook.js:42-69 | `state()` lists bids from the highest price and asks from the lowest, at most the limit of each, one entry per level |
| Orderbook.FileOrder | lib/orderbook.js:84-99 | the find/insert/grow steps of `add` compute the tree step `Filed` |
| Orderbook.FiledSteps | lib/orderbook.js:86-99 | the same steps as sequence operations |
| SyncSpec.Consistent | lib/orderbook_sync.js:19-21 | the synchroniser's invariant: every tracked product valid; at most one request per product, and only while it is resyncing |
| SyncSpec.NewProduct | lib/orderbook_sync.js:39-43 | `_newProduct` tracks the product and issues no request (its entry in `NewProductsSpec`) |
| SyncSpec.NewProducts | lib/orderbook_sync.js:34 | `forEach(_newProduct)` issues no request (entries in `NewProductsSpec`) |
| SyncSpec.NewSubscription | lib/orderbook_sync.js:77-83 | `_newSubscription` issues no request (entries in `SubscriptionSpec`) |
| SyncSpec.LoadOrderbook | lib/orderbook_sync.js:45-53 | `loadOrderbook` changes nothing for an untracked product; otherwise it keeps the book and issues one more request (queue and watermark in `StepFirst` and `StepGap`) |
| SyncSpec.Apply | lib/orderbook_sync.js:125-141 | the switch on the message type keeps the book well formed when the book operation completes |
| SyncSpec.Pushed | lib/orderbook_sync.js:97 | `push` keeps the tracked products and the requests |
| SyncSpec.Advanced | lib/orderbook_sync.js:122 | the watermark write keeps the tracked products, the requests and the queue |
| SyncSpec.Step | lib/orderbook_sync.js:85-143 | `processMessage` throws only on the next message in sequence of a loaded product (every branch in `StepFirst` to `StepNext`) |
| SyncSpec.Landed | lib/orderbook_sync.js:55-63 | `process` leaves the product's queue empty unless a replayed message threw (the book in `LandedInOrder`) |
| SyncSpec.FetchFailed | lib/orderbook_sync.js:65-68 | `problems` ends one request and changes no product |
| SyncSpec.ValidAt | lib/orderbook_sync.js:19-21 | the invariant holds at each tracked product |
| SyncSpec.BookOf | lib/orderbook_sync.js:21 | the book of a tracked product is well formed |
| SyncSpec.FullChannel | lib/orderbook_sync.js:78 | finds a channel named `full` exactly when the list has one, and then the first one |
| SyncSpec.Untracked | lib/orderbook_sync.js:80-81 | keeps exactly the listed products that are not tracked |
| SyncSpec.Replay | lib/orderbook_sync.js:59 | replaying a queue keeps the invariant and stops tracking no product |
| SyncSpec.ReplayFirst | lib/orderbook_sync.js:59 | a replay stops at a first message that throws and otherwise goes on from its state |
| SyncSpec.Reloading | lib/orderbook_sync.js:56-58 | the reloaded state keeps the invariant |
| SyncSpec.UpdatedConsistent | lib/orderbook_sync.js:19-21 | rewriting one product keeps the invariant when the new entry is valid |
| SyncSpec.ReloadingConsistent | lib/orderbook_sync.js:56-58 | the snapshot reload keeps the invariant |
| SyncSpec.NewProductConsistent | lib/orderbook_sync.js:39-43 | `_newProduct` keeps the invariant |
| SyncSpec.NewProductsConsistent | lib/orderbook_sync.js:34 | adding a list of products keeps the invariant |
| SyncSpec.LoadConsistent | lib/orderbook_sync.js:45-53 | `loadOrderbook` of a product not already resyncing keeps the invariant |
| SyncSpec.PushedConsistent | lib/orderbook_sync.js:95-98 | queueing the product's own message keeps the invariant |
| SyncSpec.AdvancedConsistent | lib/orderbook_sync.js:122-141 | moving the watermark with a well formed book keeps the invariant |
| SyncSpec.SubscriptionConsistent | lib/orderbook_sync.js:77-83 | a subscriptions message keeps the invariant |
| SyncSpec.NewProductsKeys | lib/orderbook_sync.js:34 | adding products stops tracking none |
| SyncSpec.StepConsistent | lib/orderbook_sync.js:85-143 | every reaction to a message keeps the invariant and stops tracking no product |
| SyncProperties.NewProductsSpec | lib/orderbook_sync.js:34-43 | each listed product starts at -2 with an empty queue and an empty book, and the others keep their entries |
| SyncProperties.SubscriptionSpec | lib/orderbook_sync.js:77-83 | a subscriptions message starts tracking exactly the untracked products of the full channel and leaves tracked ones alone |
| SyncProperties.NoFullChannel | lib/orderbook_sync.js:78-79 | without a full channel a subscriptions message changes nothing |
| SyncProperties.StepUntracked | lib/orderbook_sync.js:95-120 | a message of an untracked product changes nothing |
| SyncProperties.StepFirst | lib/orderbook_sync.js:95-104 | at -2 the message is queued, the queue is emptied again, the watermark becomes -1 and a snapshot is requested |
| SyncProperties.StepResyncing | lib/orderbook_sync.js:95-109 | at -1 the message is appended to the queue and nothing else changes |
| SyncProperties.StepStale | lib/orderbook_sync.js:111-114 | a message at or below the watermark is skipped |
| SyncProperties.StepGap | lib/orderbook_sync.js:116-120 | a gap empties the queue, sets -1, requests a snapshot and keeps the book |
| SyncProperties.StepNext | lib/orderbook_sync.js:122-141 | the next message moves the watermark and applies its event; it fails exactly when the book throws, and the book is then unchanged |
| SyncProperties.StepIsolation | lib/orderbook_sync.js:85-143 | a message leaves every other product and its requests alone |
| SyncProperties.WatermarkMoves | lib/orderbook_sync.js:95-141 | the watermark stays, becomes -1 or moves up by exactly one; the book changes and failures happen only on that last move |
| SyncProperties.ApplyAll | lib/orderbook_sync.js:125-141 | applying events one by one keeps the book well formed |
| SyncProperties.ReplayAppend | lib/orderbook_sync.js:59 | replaying two queues together is replaying the first, then the second unless the first threw |
| SyncProperties.ReplayThen | lib/orderbook_sync.js:59 | a replay that ends cleanly in `x` continues from `x` |
| SyncProperties.ReplayStale | lib/orderbook_sync.js:59 | messages the watermark covers are all skipped |
| SyncProperties.AdvancedTwice | lib/orderbook_sync.js:122 | two watermark moves make one |
| SyncProperties.ReplayNext | lib/orderbook_sync.js:59 | a replay whose first message is next and applies cleanly continues from that state |
| SyncProperties.ReplayContiguous | lib/orderbook_sync.js:59 | messages after the watermark without a gap are applied in order, leaving the watermark at the last one |
| SyncProperties.ResyncStuck | lib/orderbook_sync.js:65-68 | after a failed request the product stays at -1 forever and its messages are only queued |
| SyncProperties.ReplayQueued | lib/orderbook_sync.js:95-109 | a replay while resyncing goes on from the state with the message queued |
| SyncProperties.ReplayIsolation | lib/orderbook_sync.js:59 | replaying one product's messages leaves every other product alone |
| SyncProperties.LandedEmptiesQueue | lib/orderbook_sync.js:60 | a landed snapshot that did not throw leaves the product's queue empty |
| SyncProperties.LandedKeepsConsistent | lib/orderbook_sync.js:55-63 | the snapshot callback keeps the invariant |
| SyncProperties.FetchFailedConsistent | lib/orderbook_sync.js:65-68 | the failure callback keeps the invariant |
| SyncProperties.LandedIsolation | lib/orderbook_sync.js:55-63 | landing one product's snapshot leaves the others alone |
| SyncProperties.LandedState | lib/orderbook_sync.js:56-60 | the state such a landing reaches |
| SyncProperties.LandedInOrder | lib/orderbook_sync.js:55-63 | with stale messages followed by contiguous ones queued, the landed book is the snapshot with the later events applied in order, the watermark is the last number and the queue is empty |
| SyncProperties.InOrderReplay | lib/orderbook_sync.js:59 | the replay part of that |
| SyncProperties.QueueReplayed | lib/orderbook_sync.js:59 | replaying stale then contiguous messages advances to the last one |
| SyncProperties.LandedFrom | lib/orderbook_sync.js:59-60 | a landing whose replay ends cleanly empties the queue of that state |
| OrderbookSync.Perform | lib/orderbook_sync.js:123-141 | dispatching an event to the book object's `add`, `remove`, `match` or `change` fails exactly when `Apply` throws, and otherwise leaves the book `Apply` gives |
| OrderbookSync.Sequences | lib/orderbook_sync.js:20 | the watermarks map has exactly the tracked products |
| OrderbookSync.Queues | lib/orderbook_sync.js:19 | the queues map has exactly the tracked products |
| OrderbookSync.Books | lib/orderbook_sync.js:21 | the books map has exactly the tracked products |
| OrderbookSync.Updated | lib/orderbook_sync.js:39-43 | rewriting one product rewrites each view at that product |
| OrderbookSync.ReloadingViews | lib/orderbook_sync.js:56-58 | the reload sets the watermark and the reloaded book, and keeps the queue |
| OrderbookSync.OrderbookSync.constructor | lib/orderbook_sync.js:19-34 | the synchroniser starts tracking the given products |
| OrderbookSync.OrderbookSync.NewProduct | lib/orderbook_sync.js:39-43 | the state becomes `NewProduct` of the old state |
| OrderbookSync.OrderbookSync.AddProducts | lib/orderbook_sync.js:34 | the state becomes `NewProducts` of the old state |
| OrderbookSync.OrderbookSync.NewSubscription | lib/orderbook_sync.js:77-83 | the state becomes `NewSubscription` of the old state |
| OrderbookSync.OrderbookSync.LoadOrderbook | lib/orderbook_sync.js:45-53 | the state becomes `LoadOrderbook` of the old state |
| OrderbookSync.OrderbookSync.Enqueue | lib/orderbook_sync.js:97 | the message is appended to the product's queue |
| OrderbookSync.OrderbookSync.Advance | lib/orderbook_sync.js:122-141 | the watermark moves and the event is applied, as `Step` gives |
| OrderbookSync.OrderbookSync.ProcessMessage | lib/orderbook_sync.js:85-143 | the state and the failure are those `Step` gives |
| OrderbookSync.OrderbookSync.ProcessPending | lib/orderbook_sync.js:95-109 | a message below 0 is handled as `Step` gives and never fails |
| OrderbookSync.OrderbookSync.ProcessLoaded | lib/orderbook_sync.js:111-141 | a message at or above 0 is handled as `Step` gives |
| OrderbookSync.OrderbookSync.Reload | lib/orderbook_sync.js:56-58 | the state becomes `Reloading` of the old state |
| OrderbookSync.OrderbookSync.Drain | lib/orderbook_sync.js:60 | the product's queue is emptied and nothing else changes |
| OrderbookSync.OrderbookSync.OnSnapshot | lib/orderbook_sync.js:55-63 | the state and the failure are those `Landed` gives |
| OrderbookSync.OrderbookSync.OnFetchFailed | lib/orderbook_sync.js:65-68 | the state becomes `FetchFailed` of the old state |

## Left out

- The network is not modelled: websocket subscription, authentication, the
  REST clients and `getProductOrderBook`. A snapshot arriving, or its
  request failing, is a call of `OnSnapshot` or `OnFetchFailed`.
- Timing is not modelled. The pending requests are a multiset, and any
  interleaving is a sequence of calls.
- Events are not modelled: the `sync`, `synced` and `error` emits, `console.log`,
  and `book$.next(book.state())` after each applied message. `state()`
  itself is modelled (`Orderbook.Orderbook.State`).
- Wire formats are not parsed: `JSON.parse` of the message, `data.type`
  versus the inner type, `order_id || id`, `size || remaining_size`.
  Messages and snapshot rows arrive parsed as datatypes.
- BigNumber is not modelled beyond eight decimals. `parseFloat` is not
  modelled either: the sizes `change` compares are exact fixed-point
  integers.
- Sides: any side other than `buy` is the ask side, as `_getTree` treats it.
  Only `Buy` and `Sell` are modelled.
- Exceptions: a thrown `assert` is the `failed` result, and the rest of the
  handler is skipped. What a caller of the event handler does after a throw
  is not modelled.
- Tree internals: the red-black tree is modelled by an ascending sequence
  with the same find, insert and remove behaviour. Balancing is not
  modelled.
- OrderbookSync.OrderbookSync: the books are values in a map, not shared
  `Orderbook` objects.
  - Aliasing of a book object is not captured.
  - In-place mutation of a book object by the synchroniser is not captured.
  - The object methods are proved equal to those values separately
    (`OrderbookSync.Perform`, `Orderbook.Orderbook.Load`).
- OrderbookSync.OrderbookSync.LoadOrderbook requires that a tracked product
  is not already resyncing.
  - The source never calls it for such a product.
  - A second request in flight for one product is not modelled.
- Helpers are only vocabulary for the contracts above and model no line of
  the source:
  - the predicates and functions `Opposite`, `Grown`, `AfterRemoval`,
    `HandlesFrom`, `NotListed`, `NoneFullBefore`, `Contiguous` and
    `Covered`;
  - the generic sequence and map lemmas `Restored`,
    `SyncProperties.AppendFirst`, `SyncProperties.Overwritten` and
    `Orderbook.InsertThenSet`.
- Sequence numbers are non-negative: message and snapshot sequence numbers
  are `nat`. The source compares any number, but negative sequence numbers
  are not modelled.
