# market-data: order book, subscription tables and SSE stream query, in Dafny

This project models the sequential core of a market-data server. The server has two back ends: WebSocket and Server-Sent Events (SSE). Three pieces are modelled.

**The order book of one instrument** (`OrderBookSpec`, `OrderBook`).
- The state is:
  - an id → order map;
  - one price index per side, mapping a price to the ids resident at that price, oldest first;
  - a sequence counter.
- `OrderBookSpec` defines the book as a value:
  - the structural invariant `Valid`: every resident id sits in exactly one bucket, the one of its side and price, and no bucket is empty or holds an id twice;
  - `add_order`, `remove_order` and `update_order` as functions on that value;
  - the order-level (MBO) and price-level (MBP) views and the best bid and ask;
  - the synthetic activity generator, with its random draws passed in.
- The class `OrderBook.OrderBook` runs these operations in place on its fields. Each method is specified by the matching function.

**The subscription tables of the two stream managers** (`SubscriptionTable`, `WsStreamManager`, `SseStreamManager`).
- Each table maps a symbol to its subscriptions, in the order they were made.
- The tables record the registered clients and the symbols that have a book.
- The SSE manager also keeps, per client, the list of stream ids the client subscribed to.
- The models cover:
  - subscribing;
  - unsubscribing, which walks the lists in hash-map iteration order and stops at the first list with a match;
  - unregistering, with its empty-list clean-up;
  - which deliveries a tick produces;
  - who receives a heartbeat.

**The SSE stream query and framing** (`Message`, `Text`).
- `parse_streams` turns `streams=BTCUSD:MBP:20,ETHUSD:MBO:10` or `symbols=BTCUSD,ETHUSD` into `(symbol, kind, depth)` definitions, applying the query's defaults.
- Defaults: `get_default_data_type`, and 20 levels when a depth is missing, both in the query and in `SSESubscription::new`.
- `to_sse_event` framing, with the JSON body treated as an opaque string.
- `Text` holds the parts of Rust's `str` and integer formatting that these rely on: `split`, `trim`, `to_uppercase` on ASCII letters, `u32::from_str` and decimal `Display`.

Modelling choices:
- Prices are integer ticks of one cent, because every price the server creates is rounded to cents. The ordered price index is a `map<int, seq<string>>`, and "in price order" is an explicitly computed ordering of its keys.
- Clock readings are an argument `now`.
- Each random draw of the generator is a field of a `Draw` record.
- A send that can fail is a boolean argument saying whether it went through.
- Hash-map iteration order is a nondeterministic choice inside the methods. Methods whose result depends on it return that order as a ghost out-parameter, and their contract holds for every order.

## Model

| member | source | states |
|---|---|---|
| OrderBookSpec.NewOrder | backend-sse/src/order_book.rs:18-28 | A new order carries the given id, price, side and quantity, records that quantity as its original quantity, and has age 0 at the moment it is made. |
| OrderBookSpec.WithQuantity | backend-sse/src/order_book.rs:30-33 | Updating the quantity sets it, resets the age to 0 and measures later ages from now; the id, price, side and original quantity are kept. |
| OrderBookSpec.AgeMs | backend-sse/src/order_book.rs:35-38 | The age is the time since the order was last touched, or 0 when the clock reads earlier than that. |
| OrderBookSpec.EmptyBookValid | backend-sse/src/order_book.rs:69-77 | A new book, with no orders, empty price indexes and sequence 0, satisfies the structural invariant. |
| OrderBookSpec.InOneBucket | backend-sse/src/order_book.rs:79-137 | In a valid book a resident id is in the bucket at price p of a side exactly when that side and price are the order's own. |
| OrderBookSpec.Without | backend-sse/src/order_book.rs:116 | `retain(id != x)` keeps exactly the other ids, never grows, leaves a list without x unchanged, and removes exactly one entry from a duplicate-free list holding x. |
| OrderBookSpec.WithoutAppend | backend-sse/src/order_book.rs:116 | The filter keeps order: filtering a concatenation filters each part in turn, and a one-element list loses its id exactly when it is x. With the empty case this fixes the result as the survivors in their original order. |
| OrderBookSpec.RemoveKeepsValid | backend-sse/src/order_book.rs:109-137 | Removing any id, resident or not, keeps the book valid. |
| OrderBookSpec.RemoveResident | backend-sse/src/order_book.rs:109-133 | Removing a resident id takes it out of the map and out of every bucket, bumps the sequence by 1, deletes its bucket exactly when it was the bucket's only id, leaves every other bucket of that side as it was, and leaves the other side untouched. A surviving bucket is the old one filtered of the id, in order. |
| OrderBookSpec.RemoveAbsent | backend-sse/src/order_book.rs:134-136 | Removing an absent id changes nothing, not even the sequence. |
| OrderBookSpec.AddKeepsValid | backend-sse/src/order_book.rs:79-107 | Adding any order, new id or replacement, keeps the book valid. |
| OrderBookSpec.AddFreshKeepsValid | backend-sse/src/order_book.rs:84-105 | Filing an order under a fresh id keeps the book valid. |
| OrderBookSpec.AddEffect | backend-sse/src/order_book.rs:79-107 | After an add the map holds the new order under its id, and the id is last in the bucket of its new side and price and in no other bucket. The sequence rises by 1 for a new id and by 2 for a replacement. |
| OrderBookSpec.UpdateKeepsValid | backend-sse/src/order_book.rs:139-151 | Any update keeps the book valid. |
| OrderBookSpec.ReplaceKeepsValid | backend-sse/src/order_book.rs:144-146 | Changing a resident order's fields other than its side and price keeps the book valid. |
| OrderBookSpec.UpdateResident | backend-sse/src/order_book.rs:30-33 | A positive update of a resident id sets that order's quantity and timestamp, keeps its original quantity, price and side, leaves both price indexes (so the id's place in its bucket) and every other order unchanged, and adds 1 to the sequence. |
| OrderBookSpec.UpdateToZeroIsRemove | backend-sse/src/order_book.rs:139-142 | An update to quantity 0 is exactly a removal, and a no-op for an absent id. |
| OrderBookSpec.UpdateAbsent | backend-sse/src/order_book.rs:144-150 | An update of an absent id changes nothing. |
| OrderBookSpec.Max | backend-sse/src/order_book.rs:249 | The greatest price of a non-empty set of prices. |
| OrderBookSpec.Min | backend-sse/src/order_book.rs:250 | The least price of a non-empty set of prices. |
| OrderBookSpec.Descending | backend-sse/src/order_book.rs:169 | Reverse iteration of the price index: every key once, strictly decreasing. |
| OrderBookSpec.Ascending | backend-sse/src/order_book.rs:170 | Forward iteration of the price index: every key once, strictly increasing. |
| OrderBookSpec.PriceOrder | backend-sse/src/order_book.rs:168-171 | The side's iteration order: every key once, best first (highest bid, lowest ask). |
| OrderBookSpec.TopPrices | backend-sse/src/order_book.rs:173-176 | The prices the views visit: the first min(max_levels, number of buckets) prices of the side's iteration order, best first. |
| OrderBookSpec.BucketRowsExact | backend-sse/src/order_book.rs:178-189 | When every id of a bucket is resident, the bucket yields one row per id, in bucket order, each that order's snapshot with its own id. |
| OrderBookSpec.LevelRowsOrdered | backend-sse/src/order_book.rs:173-191 | Rows gathered bucket by bucket along a best-first price sequence are in price order. |
| OrderBookSpec.MboSideShape | backend-sse/src/order_book.rs:159-195 | The order-level view of a valid book has at most max_levels × 3 rows, all of the requested side and at one of the first max_levels prices, in price order. |
| OrderBookSpec.MboSidePriceDirection | backend-sse/src/order_book.rs:168-171 | Bid rows come in non-increasing price and ask rows in non-decreasing price. |
| OrderBookSpec.MboSideBestBucketFirst | backend-sse/src/order_book.rs:173-193 | The view starts with the ids of the best bucket in insertion order, up to the cap. |
| OrderBookSpec.MboSideFirstBucket | backend-sse/src/order_book.rs:173-193 | The same for any book whose first visited bucket lists only resident ids. |
| OrderBookSpec.MboCapAgrees | backend-sse/src/order_book.rs:193 | The cap as written, u32 `max_levels * 3`, equals the intended cap exactly for max_levels ≤ 1431655765. |
| OrderBookSpec.MboSideAsWrittenTruncates | backend-sse/src/order_book.rs:193 | With max_levels = 1431655766 and a best bucket of at least three orders, the view as written has 2 rows although the intended view has at least 3. |
| OrderBookSpec.MbpRunningTotal | backend-sse/src/order_book.rs:209-243 | The price-level rows never outnumber the visited prices, and each row's total_quantity is the running cumulative sum, ending at the sum of all emitted quantities. |
| OrderBookSpec.RunningTotalsMonotone | backend-sse/src/order_book.rs:232-239 | A running cumulative total never decreases along the rows. |
| OrderBookSpec.MbpRowsExact | backend-sse/src/order_book.rs:217-243 | When every visited bucket is non-empty and fully resident, there is one row per visited price, in that order, with the bucket's side, its price, order_count equal to the bucket size, and quantity equal to the sum of its orders' quantities. |
| OrderBookSpec.MbpSideShape | backend-sse/src/order_book.rs:203-246 | The price-level view of a valid book has exactly min(max_levels, number of buckets) rows, one per visited price in price order, with the bucket's order count and total quantity. |
| OrderBookSpec.MbpSideTotals | backend-sse/src/order_book.rs:209-243 | The view's total_quantity column is the running sum of its quantity column: it never decreases, and its last value is the sum of all quantities. |
| OrderBookSpec.BestBidAsk | backend-sse/src/order_book.rs:248-252 | The best bid is the greatest bid price and the best ask the least ask price, each None exactly when that side is empty. |
| OrderBookSpec.BestBidAskOfOrders | backend-sse/src/order_book.rs:248-252 | In a valid book the same holds in terms of the resident orders: None exactly when no order is on that side, otherwise a price some order has and no order of that side beats. |
| OrderBookSpec.GeneratedActivity | backend-sse/src/order_book.rs:282-350 | A generated activity is tagged with the book's symbol and the clock reading, and is an add on an empty book. An add carries a price of at least one tick, a side and a quantity in 1000..=10000. An update or cancel names a resident id. An update carries the positive quantity q + δ. The kind follows the 40/30/30 split: a draw below 0.4 is an add; on a non-empty book no higher draw is an add; a draw in [0.4, 0.7) is an update exactly when q + δ > 0 and a cancel otherwise; a draw of 0.7 or more is a cancel. |
| OrderBookSpec.GeneratedActivityAdvances | backend-sse/src/order_book.rs:282-375 | Executing a generated activity keeps the book valid and strictly raises the sequence. |
| OrderBookSpec.ExecuteKeepsValid | backend-sse/src/order_book.rs:352-375 | Executing any activity keeps the book valid. |
| OrderBook.OrderBook.constructor | backend-sse/src/order_book.rs:69-77 | A new book for the symbol is empty, with sequence 0, and valid. |
| OrderBook.OrderBook.AddOrder | backend-sse/src/order_book.rs:79-107 | Always returns true, and leaves the fields equal to the add function applied to the old state, keeping the invariant. |
| OrderBook.OrderBook.RemoveOrder | backend-sse/src/order_book.rs:109-137 | Returns whether the id was resident, and leaves the fields equal to the removal function of the old state, keeping the invariant. |
| OrderBook.OrderBook.UpdateOrder | backend-sse/src/order_book.rs:139-151 | Returns whether the id was resident, and leaves the fields equal to the update function of the old state, keeping the invariant. |
| OrderBook.OrderBook.GetMboSide | backend-sse/src/order_book.rs:159-195 | The loop with its level counter and final truncation computes the order-level view function. |
| OrderBook.OrderBook.GetMbpSide | backend-sse/src/order_book.rs:203-246 | The loop with its running cumulative quantity computes the price-level view function. |
| OrderBook.OrderBook.GetSequence | backend-sse/src/order_book.rs:412-414 | Reports the sequence counter of the book's value, the one the mutation lemmas show rising by one per change. |
| OrderBook.OrderBook.GetMboData | backend-sse/src/order_book.rs:153-157 | The order-level views of the bid side and then the ask side. |
| OrderBook.OrderBook.GetMbpData | backend-sse/src/order_book.rs:197-201 | The price-level views of the bid side and then the ask side. |
| OrderBook.OrderBook.OrderIds | backend-sse/src/order_book.rs:315 | Lists every resident id exactly once. |
| OrderBook.OrderBook.GenerateRandomActivity | backend-sse/src/order_book.rs:282-350 | Returns the generator function's activity for the current state and draw, over an enumeration of the resident ids. |
| OrderBook.OrderBook.ExecuteActivity | backend-sse/src/order_book.rs:352-375 | Leaves the fields equal to the execute function of the old state, keeping the invariant. |
| OrderBook.OrderBook.SimulateActivity | backend-sse/src/order_book.rs:267-280 | One activity per draw, each generated from the book as it stood and then applied. The sequence rises by at least the number of draws, and the invariant holds after. |
| OrderBook.AttachId | backend-sse/src/order_book.rs:92-101 | `entry(price).or_insert_with(Vec::new).push(id)` is the attach function. |
| OrderBook.DetachId | backend-sse/src/order_book.rs:115-127 | Retaining the other ids and deleting an emptied bucket is the detach function. |
| OrderBook.CollectBuckets | backend-sse/src/order_book.rs:173-191 | The bucket loop with its level counter yields the rows of the first max_levels visited prices. |
| OrderBook.BucketSnapshots | backend-sse/src/order_book.rs:178-189 | The inner loop yields one snapshot per resident id of the bucket, in bucket order. |
| OrderBook.AggregateBuckets | backend-sse/src/order_book.rs:217-243 | The aggregation loop with its running total yields the price-level rows. |
| Text.Split | backend-sse/src/message.rs:144-145 | `split` never yields an empty list, and no piece contains the separator. |
| Text.JoinOfSplit | backend-sse/src/message.rs:144 | Joining the pieces of a split with the separator gives back the original string. |
| Text.SplitOfJoin | backend-sse/src/message.rs:144 | Splitting a join of separator-free pieces gives back the pieces. |
| Text.Trim | backend-sse/src/message.rs:145 | `trim` returns the middle of the string, neither starting nor ending with Unicode white space, with only white space cut off at each end. |
| Text.TrimOfTrimmed | backend-sse/src/message.rs:145 | A string without white space at either end is its own trim. |
| Text.ToUpper | backend-sse/src/message.rs:149 | Upper-casing acts character by character and keeps the length. |
| Text.UpperIsMbo | backend-sse/src/message.rs:149-150 | A field upper-cases to "MBO" exactly when it spells m, b, o in any mix of cases. |
| Text.NatToStringDigits | backend-sse/src/stream_manager.rs:175 | The decimal spelling of a depth is all digits, starts with 0 only for zero, and denotes the depth. |
| Text.ParseU32 | backend-sse/src/message.rs:157 | `parse::<u32>()` succeeds only on non-empty text. |
| Text.ParseOfSigned | backend-sse/src/message.rs:157 | A '+' in front of a number's spelling is accepted: "+20" parses as 20. |
| Text.ParseIgnoresLeadingZero | backend-sse/src/message.rs:157 | A leading zero in front of a digit string changes nothing: "020" parses as "20" does. |
| Text.ParseRejectsOverflow | backend-sse/src/message.rs:157 | The spelling of any number of 2^32 or more, with or without '+', fails to parse. |
| Text.ParseRejectsEmpty | backend-sse/src/message.rs:157 | The empty text and a lone '+' fail to parse. |
| Text.ParseRejectsNonDigit | backend-sse/src/message.rs:157 | Any non-digit other than one leading '+' makes the parse fail: "-1", "++1", "1x" and "1 0" all fail. |
| Text.ParseOfFormatted | backend-sse/src/message.rs:157 | Parsing the decimal spelling of a u32 gives the number back. |
| Text.ParseRejectsSpaces | backend-sse/src/message.rs:157 | A depth field starting with white space does not parse. |
| Message.NewSubscription | backend-sse/src/message.rs:89-103 | The subscription copies stream id, symbol, kind and client, and its depth is the given one, or 20 when none is given. |
| Message.DefaultDataType | backend-sse/src/message.rs:176-181 | The query's default kind is MBO exactly when its data_type is the exact text "MBO". |
| Message.FieldDataType | backend-sse/src/message.rs:148-152 | A definition's kind field gives MBO exactly when it upper-cases to "MBO". |
| Message.ParseStreams | backend-sse/src/message.rs:140-174 | The pushing loops compute the declarative definition list. With `streams` there is one definition per comma-separated segment and `symbols` is ignored. Otherwise, with `symbols`, there is one per symbol. With neither, the list is empty. |
| Message.ParseSegment | backend-sse/src/message.rs:145-161 | Parsing one segment gives the segment's declarative definition. |
| Message.EmptySegment | backend-sse/src/message.rs:143-161 | An empty segment still yields a definition, with the empty symbol and the query's defaults. |
| Message.SymbolOnlySegment | backend-sse/src/message.rs:145-160 | A segment without ':' yields its trimmed text as the symbol, with the default kind and depth. |
| Message.BadDepthFallsBack | backend-sse/src/message.rs:156-157 | A depth field that does not parse falls back to the query's max_levels, else 20. |
| Message.KindCaseSensitivity | backend-sse/src/message.rs:148-155 | A definition's kind field is case-insensitive ("mbo" gives MBO), but the query's default is not ("mbo" gives MBP). |
| Message.ParseOfFormattedDef | backend-sse/src/message.rs:145-161 | Formatting a definition as symbol:KIND:depth and parsing it back gives the definition, for a symbol without ':', ',' or white space at its ends. |
| Message.FormattedFields | backend-sse/src/message.rs:145 | Such a formatted definition splits at ':' into exactly its symbol, kind name and depth digits. |
| Message.NoCommaInFormatted | backend-sse/src/message.rs:144 | A formatted definition contains no comma, so it stays one segment. |
| Message.ParseOfFormattedStreams | backend-sse/src/message.rs:143-163 | Parsing the comma-joined formatted definitions gives back the whole list, in order. |
| Message.EventNameHasNoNewline | backend-sse/src/message.rs:116-121 | No event name contains a line break. |
| Message.EventNamesDistinct | backend-sse/src/message.rs:116-121 | Each message variant has its own event name. |
| Message.FramedEventLines | backend-sse/src/message.rs:124 | For a one-line body the frame is the event line, the data line and a blank line. |
| Message.ParseOfSseEvent | backend-sse/src/message.rs:115-127 | Reading a frame back gives the variant's event name and the JSON body. |
| Message.ParseOfFailedSseEvent | backend-sse/src/message.rs:125 | When serialisation fails, the frame is still well formed and names the event "error". |
| Message.SseDataIsEventTail | backend-sse/src/message.rs:108-127 | The event frame is the event line followed by the data-only frame of the same body. |
| SubscriptionTable.WithoutStream | backend/src/stream_manager.rs:244-246 | Filtering a list of (client, stream id) keeps exactly the other subscriptions. It shrinks the list exactly when the list held a match, and leaves a list without one unchanged. |
| SubscriptionTable.WithoutStreamAppend | backend/src/stream_manager.rs:244-246 | The (client, stream id) filter keeps order: a concatenation is filtered part by part, and a one-element list loses its element exactly when it matches. This fixes the result as the survivors in their original order. |
| SubscriptionTable.WithoutClient | backend/src/stream_manager.rs:163 | Filtering a list of a client keeps exactly the other clients' subscriptions, and leaves a list without any unchanged. |
| SubscriptionTable.WithoutClientAppend | backend/src/stream_manager.rs:163 | The client filter keeps order: a concatenation is filtered part by part, and a single subscription goes exactly when it is the client's. |
| SubscriptionTable.PushEffect | backend/src/stream_manager.rs:194-197 | Pushing adds the symbol if needed, appends to that list and touches no other. |
| SubscriptionTable.DropEmptyEffect | backend/src/stream_manager.rs:167 | After the clean-up no list is empty, every non-empty list is there unchanged, and no key is added. |
| SubscriptionTable.DropEmptyLists | backend/src/stream_manager.rs:167 | The key-by-key `retain` computes the clean-up. |
| SubscriptionTable.FirstMatch | backend/src/stream_manager.rs:242-251 | The list the unsubscribe loop stops at holds a match, and when there is none, no list visited holds one. |
| SubscriptionTable.FirstMatchFound | backend/src/stream_manager.rs:241-255 | Over an iteration order of the whole map the loop stops exactly when some list holds a match. |
| SubscriptionTable.FirstMatchIsFirst | backend/src/stream_manager.rs:242-251 | No list before the one the loop stops at holds a match. |
| SubscriptionTable.UnsubscribedEffect | backend/src/stream_manager.rs:241-255 | Unsubscribing keeps every key, including an emptied list, changes only the list the loop stopped at, clears every match from it, keeps every non-matching subscription and adds nothing. That list is exactly the (client, stream id) filter of the old one, so the survivors keep their order. |
| SubscriptionTable.UnsubscribeLeavesLaterLists | backend/src/stream_manager.rs:248-251 | A match in a second list survives the unsubscribe that stopped at the first. |
| SubscriptionTable.TickDeliveries | backend/src/stream_manager.rs:92-124 | A tick never produces more deliveries than subscriptions, and each goes to a registered client and carries the book's symbol. |
| SubscriptionTable.TickDeliveriesExact | backend/src/stream_manager.rs:92-118 | A delivery is produced exactly when some subscription on the symbol belongs to a registered client and yields it: its client, stream id, kind and depth. |
| SubscriptionTable.TickDeliveriesAppend | backend/src/stream_manager.rs:92-118 | The deliveries for a concatenated list are those of the first part followed by those of the second. |
| SubscriptionTable.TickDeliveriesWithoutClient | backend/src/stream_manager.rs:92-118 | Removing one client's subscriptions from a list leaves the deliveries to every other registered client exactly as they were, in the same order. |
| SubscriptionTable.TickDeliveriesCount | backend/src/stream_manager.rs:93-94 | A tick produces exactly one delivery per subscription of a registered client. |
| SubscriptionTable.FanOut | backend/src/stream_manager.rs:92-124 | The nested tick loop computes the tick's deliveries, in subscription order. |
| SubscriptionTable.Render | backend/src/stream_manager.rs:95-118 | A delivery's message carries the subscription's stream id, the symbol and the book's sequence, and the view kind the subscription asked for. |
| SubscriptionTable.RenderedDepth | backend/src/stream_manager.rs:97-106 | A rendered message has at most max_levels price levels, or at most max_levels × 3 orders, per side. |
| SubscriptionTable.KeyOrder | backend/src/stream_manager.rs:242 | The map's iteration visits every symbol exactly once. |
| SubscriptionTable.ClientOrder | backend/src/stream_manager.rs:144 | The client map's iteration visits every registered client exactly once. |
| WsStreamManager.DropClientComplete | backend/src/stream_manager.rs:158-170 | After unregistering, no subscription of the client is left anywhere. |
| WsStreamManager.DropClientKeepsOthers | backend/src/stream_manager.rs:161-167 | Unregistering keeps every other client's subscription under its symbol and adds nothing. Each symbol's list becomes the old list filtered of the client, in order. |
| WsStreamManager.DropClientServesOthers | backend/src/stream_manager.rs:158-170 | For every client still registered, a tick after the unregister sends the same messages, in the same order, as a tick before it. |
| WsStreamManager.DropClientNoEmpty | backend/src/stream_manager.rs:166-167 | Unregistering leaves no empty list behind. |
| WsStreamManager.DropClientIdempotent | backend/src/stream_manager.rs:158-170 | Unregistering twice has the same effect as once. |
| WsStreamManager.FilterEveryList | backend/src/stream_manager.rs:162-164 | The `iter_mut` loop filters every list of the client, in any iteration order. |
| WsStreamManager.SubscribedClientIsServed | backend/src/stream_manager.rs:185-206 | A registered client's new subscription is served on the symbol's next tick, with its stream id, kind and depth (20 when none was given). |
| WsStreamManager.DuplicatesAccepted | backend/src/stream_manager.rs:193-197 | Subscribing twice with the same stream id leaves two identical entries. |
| WsStreamManager.WsStreamManager.constructor | backend/src/stream_manager.rs:26-35 | A new manager has no subscriptions, clients or books. |
| WsStreamManager.WsStreamManager.RegisterClient | backend/src/stream_manager.rs:153-156 | Adds the client and changes nothing else. |
| WsStreamManager.WsStreamManager.UnregisterClient | backend/src/stream_manager.rs:158-170 | Removes the client and leaves the table filtered of its subscriptions and cleaned of empty lists. |
| WsStreamManager.WsStreamManager.Subscribe | backend/src/stream_manager.rs:172-239 | Records the book and appends the subscription (depth 20 when none is given). A registered client gets a snapshot at the same depth. The call fails with "Failed to send initial snapshot" exactly when that send is refused, and the subscription stays. |
| WsStreamManager.WsStreamManager.Unsubscribe | backend/src/stream_manager.rs:241-255 | Returns true exactly when some list, in the map's iteration order, held a match, and leaves the table unsubscribed at the first such list only. |
| WsStreamManager.WsStreamManager.Tick | backend/src/stream_manager.rs:92-124 | Produces the tick's deliveries for the symbol. |
| WsStreamManager.WsStreamManager.Heartbeat | backend/src/stream_manager.rs:140-148 | Every registered client receives the heartbeat exactly once, whatever it subscribed to. |
| SseStreamManager.StreamIdInjective | backend-sse/src/stream_manager.rs:175 | Distinct definitions get distinct stream ids, whatever their symbols contain. |
| SseStreamManager.MatchesInOneList | backend-sse/src/stream_manager.rs:175-189 | In a table filed by `subscribe_to_streams`, all subscriptions with a given client and stream id sit in one list. |
| SseStreamManager.UnsubscribedIsOrderFree | backend-sse/src/stream_manager.rs:239-250 | In such a table the removal loop's iteration order does not matter: stopping at the first matching list removes every match there is. |
| SseStreamManager.NoMatchAnywhere | backend-sse/src/stream_manager.rs:240-250 | With no match in any list the filter changes nothing. |
| SseStreamManager.OnlyMatchesAt | backend-sse/src/stream_manager.rs:240-250 | When the list at k holds a match, filtering that list alone is filtering all of them. |
| SseStreamManager.Snapshots | backend-sse/src/stream_manager.rs:197-229 | One initial snapshot per definition. |
| SseStreamManager.FirstRefused | backend-sse/src/stream_manager.rs:225-227 | The position of the first refused send: every send before it went through, and the one at it did not. |
| SseStreamManager.Processed | backend-sse/src/stream_manager.rs:169-234 | The call never gets through more definitions than it was given. |
| SseStreamManager.StreamIds | backend-sse/src/stream_manager.rs:175 | One stream id per definition. |
| SseStreamManager.RegisteredStreams | backend-sse/src/stream_manager.rs:191-195 | Registering definitions appends their stream ids to the client's list in definition order. It changes no other client's list and no registration. |
| SseStreamManager.RegisteredSubscriptions | backend-sse/src/stream_manager.rs:185-189 | Registering definitions appends to each symbol's list exactly that symbol's new subscriptions, in definition order. |
| SseStreamManager.RegisteredKeepsWellKeyed | backend-sse/src/stream_manager.rs:175-189 | Registration keeps every subscription under its own symbol with the id its definition formats to. |
| SseStreamManager.RegisterKeepsTracked | backend-sse/src/stream_manager.rs:145-149 | Registering a client that holds no subscription, as a freshly generated id does, leaves the table as it was and keeps every subscription's stream id listed for its client. |
| SseStreamManager.RegisteredKeepsTracked | backend-sse/src/stream_manager.rs:186-195 | Registration keeps every subscription's stream id listed for its client. |
| SseStreamManager.SubscribeOutcome | backend-sse/src/stream_manager.rs:164-237 | The call fails exactly when the client is registered and some send is refused, and it stops at the first refusal. |
| SseStreamManager.SubscribeStreams | backend-sse/src/stream_manager.rs:169-227 | On failure the client's list gains the ids of the definitions up to and including the first refused one. On success it gains them all. |
| SseStreamManager.SpecOnRefusal | backend-sse/src/stream_manager.rs:186-227 | A refusal at i ends the call with the error, definitions up to i registered and the snapshots before i sent. |
| SseStreamManager.SpecOnCompletion | backend-sse/src/stream_manager.rs:169-236 | Without a refusal, or without a registered sender, every definition is registered and the call succeeds. |
| SseStreamManager.RemoveAllExact | backend-sse/src/stream_manager.rs:151-158 | In a table filed by `subscribe_to_streams`, the removals take out exactly the client's subscriptions to the listed streams, whatever the iteration orders. They keep the table well filed and leave no empty list. |
| SseStreamManager.RemoveAllFilters | backend-sse/src/stream_manager.rs:151-158 | In a table filed by `subscribe_to_streams`, each symbol's list after the removals is the old one filtered of the client's subscriptions to the listed streams, the rest in their order. |
| SseStreamManager.WithoutStreams | backend-sse/src/stream_manager.rs:151-158 | What the removals leave of a list keeps exactly the subscriptions that are not the client's subscriptions to one of the listed streams; a list with none of those is unchanged. |
| SseStreamManager.WithoutStreamsAppend | backend-sse/src/stream_manager.rs:151-158 | That filter keeps order: a concatenation is filtered part by part, and a single subscription goes exactly when it is the client's on a listed stream. |
| SseStreamManager.WithoutStreamsStep | backend-sse/src/stream_manager.rs:153-157 | One more removal filters one more stream id from every list. |
| SseStreamManager.WithoutStreamsOnlyClient | backend-sse/src/stream_manager.rs:153-157 | The removals only ever take out subscriptions of the unregistered client. |
| SseStreamManager.RemovalFiltersLists | backend-sse/src/stream_manager.rs:239-254 | On a table filed by `subscribe_to_streams`, one `remove_subscription` filters every list of one more stream id and drops the lists it empties. |
| SseStreamManager.UnregisterComplete | backend-sse/src/stream_manager.rs:151-162 | When every subscription was made through `subscribe_to_streams`, unregistering leaves none of the client's subscriptions. Every other client's subscription stays where it was, and nothing is added. |
| SseStreamManager.UnregisterServesOthers | backend-sse/src/stream_manager.rs:151-162 | Each symbol's list becomes the old one filtered of the client's listed streams, the rest in their order. For every client still registered, a tick after the unregister sends the same messages, in the same order, as a tick before it. |
| SseStreamManager.UnregisterKeepsInvariants | backend-sse/src/stream_manager.rs:151-162 | Unregistering keeps the table well filed and every remaining subscription's stream id listed for its client, so the teardown theorem applies to every later state as well. |
| SseStreamManager.NoneOfClientLeft | backend-sse/src/stream_manager.rs:153-158 | Removing a tracked client's subscriptions to every stream listed for it removes all of them. |
| SseStreamManager.SseStreamManager.constructor | backend-sse/src/stream_manager.rs:26-33 | A new manager has empty tables. |
| SseStreamManager.SseStreamManager.RegisterClient | backend-sse/src/stream_manager.rs:145-149 | Adds the client and resets its stream list to empty. |
| SseStreamManager.SseStreamManager.AddStream | backend-sse/src/stream_manager.rs:171-195 | One definition's table updates: the book, the subscription under its symbol, and its id `symbol_KIND_depth` at the end of the client's list. |
| SseStreamManager.SseStreamManager.SubscribeToStreams | backend-sse/src/stream_manager.rs:164-237 | The new tables, the outcome and the snapshots sent are those of the declarative subscribe function. |
| SseStreamManager.SseStreamManager.RegisterStreams | backend-sse/src/stream_manager.rs:169-234 | The definition loop either gets through every definition, or stops with the error at the first refused snapshot after registering that definition. |
| SseStreamManager.SseStreamManager.RemoveSubscription | backend-sse/src/stream_manager.rs:239-254 | Filters the first list in iteration order holding a match, then drops every empty list of every symbol. |
| SseStreamManager.SseStreamManager.UnregisterClient | backend-sse/src/stream_manager.rs:151-162 | Takes the stream list out, performs one removal per listed id, each over the lists present at its turn, then drops the sender. |
| SseStreamManager.SseStreamManager.Tick | backend-sse/src/stream_manager.rs:84-117 | Produces the tick's deliveries for the symbol, as in the WebSocket manager. |
| SseStreamManager.SseStreamManager.Heartbeat | backend-sse/src/stream_manager.rs:132-140 | Every registered client receives the heartbeat exactly once. |

## Specification functions

The operations below are defined once, as functions on values. The methods of the classes are specified by them, and the lemmas in the table above state what they mean.

| function | source | defines |
|---|---|---|
| OrderBookSpec.RemoveSpec | backend-sse/src/order_book.rs:109-137 | `remove_order`: out of the map and out of its bucket, the emptied bucket deleted, the sequence advanced; an absent id changes nothing. |
| OrderBookSpec.AddSpec | backend-sse/src/order_book.rs:79-106 | `add_order`: a resident id is removed first, then the order is filed at the end of its bucket and the sequence advanced. |
| OrderBookSpec.UpdateSpec | backend-sse/src/order_book.rs:139-151 | `update_order`: quantity 0 is a removal; otherwise the quantity and timestamp change in place and the sequence advances. |
| OrderBookSpec.MboSide | backend-sse/src/order_book.rs:159-195 | `get_mbo_side`: the rows of the first max_levels prices in side order, truncated at 3 × max_levels orders. |
| OrderBookSpec.MbpSide | backend-sse/src/order_book.rs:203-246 | `get_mbp_side`: one aggregated row per price of the first max_levels prices, with the running total. |
| OrderBookSpec.GenerateActivity | backend-sse/src/order_book.rs:282-350 | `generate_random_activity`, with the random draws passed in. |
| OrderBookSpec.ExecuteSpec | backend-sse/src/order_book.rs:352-375 | `execute_activity`: each activity through the matching mutation. |
| Message.ParseStreamDef | backend-sse/src/message.rs:145-161 | One segment of `parse_streams`: trim, split on ':', kind and depth with their defaults. |
| Message.StreamsOf | backend-sse/src/message.rs:140-173 | `parse_streams`: one definition per segment of `streams`, else one per symbol of `symbols`. |
| SseStreamManager.StreamId | backend-sse/src/stream_manager.rs:175 | The stream id `symbol_KIND_depth`. |
| SseStreamManager.SubscribeSpec | backend-sse/src/stream_manager.rs:164-237 | `subscribe_to_streams`: the new tables, the outcome and the snapshots sent. |
| SseStreamManager.RemoveSubscriptionSpec | backend-sse/src/stream_manager.rs:239-254 | `remove_subscription`: the first-match filter, then the empty-list clean-up. |
| SseStreamManager.UnregisterSpec | backend-sse/src/stream_manager.rs:151-162 | `unregister_client`: one removal per listed stream id, and the client and its list forgotten. |
| WsStreamManager.DropClient | backend/src/stream_manager.rs:158-170 | `unregister_client`'s table edit: every list filtered of the client, then the empty lists dropped. |
| SubscriptionTable.Unsubscribed | backend/src/stream_manager.rs:241-255 | The unsubscribe loop: filter the first list in iteration order that holds a match, and stop. |

## Left out

- Concurrency is not modelled: the tokio runtime, timers, `RwLock`, DashMap's concurrent semantics and the mpsc and broadcast channels. The tables are plain maps changed by sequential methods.
- The per-subscription re-read of the sequence during a tick is one read of the book's counter.
- The stream managers keep only the set of symbols that have a book, not the books. A delivery is rendered against a book value by `SubscriptionTable.Render`.
- A tick is modelled for one symbol. The outer loop over all books (backend/src/stream_manager.rs:76) and the broadcast of activities are not modelled.
- Floating point is not modelled. Prices are integer ticks, so `OrderedFloat` and its NaN handling, `get_spread_info` and the float price perturbation are out. The generator's perturbation arrives already rounded to ticks (-10..=10) and is floored at one tick.
- The average age of an MBP row is floor division of the total age by the order count, with ages from the `now` argument. No property is stated about it.
- `initialize_with_sample_data` and `start`/`initialize_symbol` are not modelled. They are 60 adds with float prices and random timestamps.
- Randomness is not modelled: the activity count drawn by `gen_range(1..=8)` is the length of the draws list; the chosen order is `pick % len`; new order ids are an argument.
- On an empty book an update or cancel draw makes the source draw again, which can only end in an add. The model builds that add from the same draw's add fields.
- Order ids and client ids are strings and naturals; UUIDs and `format!("order_{}_{}", ...)` are not modelled.
- JSON serialisation is an opaque string. A failed serialisation is `None`. The market-data payload is not part of `SSEMessage`.
- u64 quantities and the sequence are unbounded naturals; overflow is not modelled.
- Text.ToUpper: upper-cases ASCII letters only. Rust's Unicode `to_uppercase` maps no other character to 'M', 'B' or 'O', so the kind field reads the same.
- OrderBook.OrderBook.GetMboSide: truncates at the intended 3 × max_levels orders, not at the u32-wrapped product of backend-sse/src/order_book.rs:193. Both are modelled and compared under "Findings".
- OrderBook.OrderBook.GetMboData: uses the intended cap of `GetMboSide` for both sides, not the wrapped one.
- SubscriptionTable.Render: renders the order-level view with the intended cap, not the wrapped one.
- The WebSocket back end's ticks render with its own crate's order book, backend/src/order_book.rs. That file is not part of this model. `SubscriptionTable.Render` renders both managers' deliveries against the SSE back end's book; the subscription logic itself is the same.
- The WebSocket and SSE handlers, `main.rs`, `lib.rs` and the serde-only shapes of backend/src/message.rs are not modelled. They are transport, routing and data declarations.
- SseStreamManager.UnregisterComplete: holds only for clients whose subscriptions were all made through `subscribe_to_streams` and are still listed for them. A client re-registered after subscribing has its list reset by `register_client`, and its earlier subscriptions are not removed.
- Where the code differs from the system's documented behaviour, the model follows the code:
  - new quantities are drawn from 1000..=10000;
  - 1..=8 activities per tick;
  - an update keeps the order's place in its bucket;
  - a repeated stream id is accepted as a second subscription.
- Loops that build a value are module-level methods the class methods call: `AttachId`, `DetachId`, `CollectBuckets`, `BucketSnapshots`, `AggregateBuckets`, `FilterEveryList`, `DropEmptyLists`, `FanOut`, `KeyOrder`, `ClientOrder`. The in-place edits of a bucket or a list are whole-value reassignments of the map entry.

## Findings

| source | as written | input that shows it | evidently intended | confidence | as-written member | corrected member |
|---|---|---|---|---|---|---|
| backend-sse/src/order_book.rs:193 | `result.truncate((max_levels * 3) as usize)`, where `max_levels * 3` is u32 arithmetic and wraps in a release build (and panics in a debug build) | max_levels = 1431655766 (a depth a client can request): the cap wraps to 2, so a best bucket of three or more orders is cut to 2 rows | cap the view at 3 × max_levels orders | not executed | OrderBookSpec.MboSideAsWrittenTruncates | OrderBookSpec.MboSideBestBucketFirst |
