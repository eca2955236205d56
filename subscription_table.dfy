/** The subscription table both stream managers keep: symbol → the subscriptions on that
    symbol in the order they were made, together with the `retain` filters, the
    "first list with a match" search of the unsubscribe loops, the empty-list clean-up and the
    selection of recipients on a tick. */
module SubscriptionTable {
  import opened Common
  import opened Message
  import opened OrderBookSpec

  type Table = map<string, seq<Subscription>>

  /** The list kept for `symbol`, or the empty list when there is none. */
  function Lookup(t: Table, symbol: string): seq<Subscription> {
    if symbol in t then t[symbol] else []
  }

  /** `order` lists every key of `t` once: one possible iteration order of the map. */
  ghost predicate Enumerates(order: seq<string>, t: Table) {
    NoDup(order) && forall k :: k in order <==> k in t
  }

  /** Each key of `t` appears in `order`. */
  ghost predicate Covers(order: seq<string>, t: Table) {
    forall k :: k in t ==> k in order
  }

  // ---------------------------------------------------------------------------------------
  // Vec::retain on one list

  predicate Matches(s: Subscription, client: ClientId, streamId: string) {
    s.clientId == client && s.streamId == streamId
  }

  predicate HasMatch(subs: seq<Subscription>, client: ClientId, streamId: string) {
    exists i :: 0 <= i < |subs| && Matches(subs[i], client, streamId)
  }

  /** `retain(|sub| !(sub.client_id == client && sub.stream_id == stream_id))`: the list
      shrinks exactly when it held a match, keeps every other subscription, and is untouched
      when there is nothing to remove. */
  function WithoutStream(subs: seq<Subscription>, client: ClientId, streamId: string): (r: seq<Subscription>)
    ensures forall s :: s in r <==> s in subs && !Matches(s, client, streamId)
    ensures |r| <= |subs|
    ensures |r| < |subs| <==> HasMatch(subs, client, streamId)
    ensures !HasMatch(subs, client, streamId) ==> r == subs
    decreases |subs|
  {
    if |subs| == 0 then []
    else
      var rest := WithoutStream(subs[1..], client, streamId);
      assert HasMatch(subs, client, streamId) <==>
        Matches(subs[0], client, streamId) || HasMatch(subs[1..], client, streamId) by {
        if HasMatch(subs[1..], client, streamId) {
          var i :| 0 <= i < |subs[1..]| && Matches(subs[1..][i], client, streamId);
          assert subs[i + 1] == subs[1..][i];
        }
        if HasMatch(subs, client, streamId) && !Matches(subs[0], client, streamId) {
          var i :| 0 <= i < |subs| && Matches(subs[i], client, streamId);
          assert subs[1..][i - 1] == subs[i];
        }
      }
      assert subs == [subs[0]] + subs[1..];
      if Matches(subs[0], client, streamId) then rest else [subs[0]] + rest
  }

  /** `retain(|sub| sub.client_id != client)`: every subscription of `client` goes, every
      other one stays, and a list without any is untouched. */
  function WithoutClient(subs: seq<Subscription>, client: ClientId): (r: seq<Subscription>)
    ensures forall s :: s in r <==> s in subs && s.clientId != client
    ensures (forall i :: 0 <= i < |subs| ==> subs[i].clientId != client) ==> r == subs
    decreases |subs|
  {
    if |subs| == 0 then []
    else
      var rest := WithoutClient(subs[1..], client);
      assert subs == [subs[0]] + subs[1..];
      if subs[0].clientId == client then rest else [subs[0]] + rest
  }

  /** `retain` keeps order: filtering a concatenation filters each part, and a one-element
      list loses its element exactly when it matches. Together with the empty list these
      determine the filter completely: the survivors, in their original order. */
  lemma {:induction false} WithoutStreamAppend(a: seq<Subscription>, b: seq<Subscription>,
                                               client: ClientId, streamId: string)
    ensures WithoutStream(a + b, client, streamId) ==
      WithoutStream(a, client, streamId) + WithoutStream(b, client, streamId)
    ensures forall s ::
      WithoutStream([s], client, streamId) == (if Matches(s, client, streamId) then [] else [s])
    decreases |a|
  {
    if |a| > 0 {
      assert (a + b)[1..] == a[1..] + b;
      WithoutStreamAppend(a[1..], b, client, streamId);
    } else {
      assert a + b == b;
    }
  }

  /** The same for the client filter: the other clients' subscriptions in their order. */
  lemma {:induction false} WithoutClientAppend(a: seq<Subscription>, b: seq<Subscription>, client: ClientId)
    ensures WithoutClient(a + b, client) == WithoutClient(a, client) + WithoutClient(b, client)
    ensures forall s :: WithoutClient([s], client) == (if s.clientId == client then [] else [s])
    decreases |a|
  {
    if |a| > 0 {
      assert (a + b)[1..] == a[1..] + b;
      WithoutClientAppend(a[1..], b, client);
    } else {
      assert a + b == b;
    }
  }

  // ---------------------------------------------------------------------------------------
  // Table edits

  /** `entry(symbol).or_insert_with(Vec::new).push(s)`. */
  function Push(t: Table, symbol: string, s: Subscription): Table {
    t[symbol := Lookup(t, symbol) + [s]]
  }

  /** Pushing adds the key if needed, appends to that one list and touches no other. */
  lemma PushEffect(t: Table, symbol: string, s: Subscription)
    ensures Push(t, symbol, s).Keys == t.Keys + {symbol}
    ensures Lookup(Push(t, symbol, s), symbol) == Lookup(t, symbol) + [s]
    ensures forall k :: k != symbol ==> Lookup(Push(t, symbol, s), k) == Lookup(t, k)
  {
  }

  /** `retain(|_, v| !v.is_empty())`. */
  function DropEmpty(t: Table): Table {
    map k | k in t && |t[k]| > 0 :: t[k]
  }

  /** After the clean-up no list is empty, and every non-empty list is still there as it was. */
  lemma DropEmptyEffect(t: Table)
    ensures forall k :: k in DropEmpty(t) ==> |DropEmpty(t)[k]| > 0
    ensures forall k :: k in t && |t[k]| > 0 ==> k in DropEmpty(t) && DropEmpty(t)[k] == t[k]
    ensures DropEmpty(t).Keys <= t.Keys
  {
  }

  /** `retain(|_, v| !v.is_empty())` on the whole map, key by key. */
  method DropEmptyLists(t: Table) returns (r: Table)
    ensures r == DropEmpty(t)
  {
    r := t;
    var rest := t.Keys;
    while rest != {}
      invariant rest <= t.Keys
      invariant forall k :: k in r ==> k in t && r[k] == t[k]
      invariant forall k :: k in t ==> (k in r <==> (k in rest || |t[k]| > 0))
      decreases |rest|
    {
      var k :| k in rest;
      if |t[k]| == 0 {
        r := r - {k};
      }
      rest := rest - {k};
    }
    assert forall k :: k in r <==> k in t && |t[k]| > 0;
  }

  // ---------------------------------------------------------------------------------------
  // The unsubscribe loop: walk the lists in iteration order, filter the first one that
  // holds a match, and stop there.

  /** The first key along `order` whose list holds a `(client, streamId)` match. */
  function FirstMatch(t: Table, order: seq<string>, client: ClientId, streamId: string): (r: Option<string>)
    ensures r.Some? ==> r.value in t && r.value in order && HasMatch(t[r.value], client, streamId)
    ensures r.None? ==> forall k :: k in order && k in t ==> !HasMatch(t[k], client, streamId)
    decreases |order|
  {
    if |order| == 0 then None
    else if order[0] in t && HasMatch(t[order[0]], client, streamId) then Some(order[0])
    else
      var r := FirstMatch(t, order[1..], client, streamId);
      assert forall k :: k in order ==> k == order[0] || k in order[1..];
      r
  }

  /** The table once the loop has stopped: only the first matching list is filtered, and an
      emptied list stays in place. */
  function Unsubscribed(t: Table, order: seq<string>, client: ClientId, streamId: string): Table {
    match FirstMatch(t, order, client, streamId)
    case None => t
    case Some(k) => t[k := WithoutStream(t[k], client, streamId)]
  }

  /** Over an iteration order of the whole map, the loop finds a list exactly when some list
      holds a match. */
  lemma FirstMatchFound(t: Table, order: seq<string>, client: ClientId, streamId: string)
    requires Covers(order, t)
    ensures FirstMatch(t, order, client, streamId).Some? <==>
      exists k :: k in t && HasMatch(t[k], client, streamId)
  {
  }

  /** The list the loop stops at is the first matching one along the order. */
  lemma {:induction false} FirstMatchIsFirst(t: Table, order: seq<string>, client: ClientId, streamId: string)
    requires FirstMatch(t, order, client, streamId).Some?
    ensures exists i :: 0 <= i < |order| && order[i] == FirstMatch(t, order, client, streamId).value &&
                        forall j :: 0 <= j < i && order[j] in t ==> !HasMatch(t[order[j]], client, streamId)
    decreases |order|
  {
    if !(order[0] in t && HasMatch(t[order[0]], client, streamId)) {
      FirstMatchIsFirst(t, order[1..], client, streamId);
      var k := FirstMatch(t, order, client, streamId).value;
      var i :| 0 <= i < |order[1..]| && order[1..][i] == k &&
        forall j :: 0 <= j < i && order[1..][j] in t ==> !HasMatch(t[order[1..][j]], client, streamId);
      assert order[i + 1] == k;
      forall j | 0 <= j < i + 1 && order[j] in t
        ensures !HasMatch(t[order[j]], client, streamId)
      {
        if j > 0 { assert order[j] == order[1..][j - 1]; }
      }
    } else {
      assert order[0] == FirstMatch(t, order, client, streamId).value;
    }
  }

  /** What one unsubscribe does to the table: the keys stay the same, only the list the loop
      stopped at changes, and in it exactly the matches are gone. Every other subscription is
      where it was. */
  lemma UnsubscribedEffect(t: Table, order: seq<string>, client: ClientId, streamId: string)
    ensures Unsubscribed(t, order, client, streamId).Keys == t.Keys
    ensures forall k :: k in t && Some(k) != FirstMatch(t, order, client, streamId) ==>
      Unsubscribed(t, order, client, streamId)[k] == t[k]
    ensures forall k, s :: k in t && s in t[k] && !Matches(s, client, streamId) ==>
      s in Unsubscribed(t, order, client, streamId)[k]
    ensures forall k, s :: k in t && s in Unsubscribed(t, order, client, streamId)[k] ==> s in t[k]
    ensures FirstMatch(t, order, client, streamId).Some? ==>
      !HasMatch(Unsubscribed(t, order, client, streamId)[FirstMatch(t, order, client, streamId).value], client, streamId)
    ensures FirstMatch(t, order, client, streamId).Some? ==>
      var k := FirstMatch(t, order, client, streamId).value;
      Unsubscribed(t, order, client, streamId)[k] == WithoutStream(t[k], client, streamId)
  {
  }

  /** When a match sits in two lists, the loop leaves the second one alone: the subscription
      there survives the unsubscribe that reported success. */
  lemma UnsubscribeLeavesLaterLists(t: Table, order: seq<string>, client: ClientId, streamId: string,
                                    k1: string, k2: string, s: Subscription)
    requires Enumerates(order, t)
    requires k1 != k2 && k1 in t && k2 in t
    requires HasMatch(t[k1], client, streamId)
    requires s in t[k2] && Matches(s, client, streamId)
    requires FirstMatch(t, order, client, streamId) == Some(k1)
    ensures s in Unsubscribed(t, order, client, streamId)[k2]
  {
  }

  // ---------------------------------------------------------------------------------------
  // Recipients of a tick

  /** One market-data message to send: to `clientId`, tagged with the subscription's stream
      id and the book's symbol, computed at the subscription's kind and depth. */
  datatype Delivery = Delivery(
    clientId: ClientId,
    streamId: string,
    symbol: string,
    dataType: DataType,
    maxLevels: U32)

  function DeliveryFor(s: Subscription, symbol: string): Delivery {
    Delivery(s.clientId, s.streamId, symbol, s.dataType, s.maxLevels)
  }

  /** The tick's inner loop over the subscriptions of one symbol: one delivery per
      subscription whose client is registered, in subscription order. */
  function TickDeliveries(subs: seq<Subscription>, clients: set<ClientId>, symbol: string): (r: seq<Delivery>)
    ensures |r| <= |subs|
    ensures forall i :: 0 <= i < |r| ==> r[i].clientId in clients && r[i].symbol == symbol
    decreases |subs|
  {
    if |subs| == 0 then []
    else
      var prev := TickDeliveries(subs[..|subs| - 1], clients, symbol);
      var s := subs[|subs| - 1];
      if s.clientId in clients then prev + [DeliveryFor(s, symbol)] else prev
  }

  /** A tick delivers to a registered client once per subscription on the symbol, and to
      nobody else: every delivery comes from a subscription of a registered client, and every
      such subscription yields its delivery. */
  lemma {:induction false} TickDeliveriesExact(subs: seq<Subscription>, clients: set<ClientId>, symbol: string, d: Delivery)
    ensures d in TickDeliveries(subs, clients, symbol) <==>
      exists i :: 0 <= i < |subs| && subs[i].clientId in clients && d == DeliveryFor(subs[i], symbol)
    decreases |subs|
  {
    if |subs| > 0 {
      var init := subs[..|subs| - 1];
      TickDeliveriesExact(init, clients, symbol, d);
      if d in TickDeliveries(init, clients, symbol) {
        var i :| 0 <= i < |init| && init[i].clientId in clients && d == DeliveryFor(init[i], symbol);
        assert subs[i] == init[i];
      }
      if exists i :: 0 <= i < |subs| && subs[i].clientId in clients && d == DeliveryFor(subs[i], symbol) {
        var i :| 0 <= i < |subs| && subs[i].clientId in clients && d == DeliveryFor(subs[i], symbol);
        if i < |subs| - 1 {
          assert init[i] == subs[i];
        }
      }
    }
  }

  /** The deliveries of a concatenation are those of each part, one after the other. */
  lemma {:induction false} TickDeliveriesAppend(a: seq<Subscription>, b: seq<Subscription>,
                                                clients: set<ClientId>, symbol: string)
    ensures TickDeliveries(a + b, clients, symbol) ==
      TickDeliveries(a, clients, symbol) + TickDeliveries(b, clients, symbol)
    decreases |b|
  {
    if |b| == 0 {
      assert a + b == a;
    } else {
      var ab := a + b;
      assert ab[..|ab| - 1] == a + b[..|b| - 1];
      assert ab[|ab| - 1] == b[|b| - 1];
      TickDeliveriesAppend(a, b[..|b| - 1], clients, symbol);
    }
  }

  /** Dropping one client's subscriptions changes nothing for the clients that remain
      registered without it: each of them gets the same messages, in the same order. */
  lemma {:induction false} TickDeliveriesWithoutClient(subs: seq<Subscription>, client: ClientId,
                                                       clients: set<ClientId>, symbol: string)
    requires client !in clients
    ensures TickDeliveries(WithoutClient(subs, client), clients, symbol) ==
      TickDeliveries(subs, clients, symbol)
    decreases |subs|
  {
    if |subs| > 0 {
      var head := [subs[0]];
      assert subs == head + subs[1..];
      WithoutClientAppend(head, subs[1..], client);
      TickDeliveriesWithoutClient(subs[1..], client, clients, symbol);
      TickDeliveriesAppend(WithoutClient(head, client), WithoutClient(subs[1..], client), clients, symbol);
      TickDeliveriesAppend(head, subs[1..], clients, symbol);
      assert head[..0] == [];
      assert TickDeliveries(WithoutClient(head, client), clients, symbol) == TickDeliveries(head, clients, symbol);
    }
  }

  /** The number of subscriptions in `subs` held by registered clients. */
  function RegisteredCount(subs: seq<Subscription>, clients: set<ClientId>): nat
    decreases |subs|
  {
    if |subs| == 0 then 0
    else RegisteredCount(subs[..|subs| - 1], clients) + (if subs[|subs| - 1].clientId in clients then 1 else 0)
  }

  /** One message per subscription of a registered client: no more, no fewer. */
  lemma {:induction false} TickDeliveriesCount(subs: seq<Subscription>, clients: set<ClientId>, symbol: string)
    ensures |TickDeliveries(subs, clients, symbol)| == RegisteredCount(subs, clients)
    decreases |subs|
  {
    if |subs| > 0 {
      TickDeliveriesCount(subs[..|subs| - 1], clients, symbol);
    }
  }

  /** The tick's step: one more subscription adds its delivery exactly when its client is
      registered. */
  lemma TickDeliveriesStep(subs: seq<Subscription>, clients: set<ClientId>, symbol: string, i: nat)
    requires i < |subs|
    ensures TickDeliveries(subs[..i + 1], clients, symbol) ==
      TickDeliveries(subs[..i], clients, symbol) +
      (if subs[i].clientId in clients then [DeliveryFor(subs[i], symbol)] else [])
  {
    assert subs[..i + 1][..i] == subs[..i];
  }

  /** The inner loop of a tick: walk the symbol's list, if there is one, and emit a delivery
      for each subscription whose client is registered. */
  method FanOut(t: Table, clients: set<ClientId>, symbol: string) returns (deliveries: seq<Delivery>)
    ensures deliveries == TickDeliveries(Lookup(t, symbol), clients, symbol)
  {
    deliveries := [];
    if symbol in t {
      var subs := t[symbol];
      var i := 0;
      while i < |subs|
        invariant 0 <= i <= |subs|
        invariant deliveries == TickDeliveries(subs[..i], clients, symbol)
      {
        TickDeliveriesStep(subs, clients, symbol, i);
        if subs[i].clientId in clients {
          deliveries := deliveries + [DeliveryFor(subs[i], symbol)];
        }
        i := i + 1;
      }
      assert subs[..i] == subs;
    }
  }

  // ---------------------------------------------------------------------------------------
  // The data a delivery carries

  datatype MarketDataUpdate =
    | MboUpdate(mboBids: seq<MBOLevel>, mboAsks: seq<MBOLevel>)
    | MbpUpdate(mbpBids: seq<MBPLevel>, mbpAsks: seq<MBPLevel>)

  /** `ServerMessage::MarketData` / `SSEMessage::MarketData` without its wall-clock timestamp. */
  datatype MarketDataMessage = MarketDataMessage(streamId: string, symbol: string, data: MarketDataUpdate, sequence: nat)

  /** The message a delivery becomes against the symbol's book: both sides of the chosen view
      at the subscription's depth, and the book's sequence. */
  function Render(d: Delivery, b: Book, now: int): (m: MarketDataMessage)
    ensures m.streamId == d.streamId && m.symbol == d.symbol && m.sequence == b.sequence
    ensures m.data.MboUpdate? <==> d.dataType == MBO
  {
    var data := match d.dataType
      case MBO => MboUpdate(MboSide(b, Bid, d.maxLevels, now), MboSide(b, Ask, d.maxLevels, now))
      case MBP => MbpUpdate(MbpSide(b, Bid, d.maxLevels, now), MbpSide(b, Ask, d.maxLevels, now));
    MarketDataMessage(d.streamId, d.symbol, data, b.sequence)
  }

  /** A rendered message never exceeds its subscription's depth: at most `maxLevels` price
      levels a side, or `maxLevels * 3` orders a side. */
  lemma RenderedDepth(d: Delivery, b: Book, now: int)
    requires Valid(b)
    ensures Render(d, b, now).data.MbpUpdate? ==>
      |Render(d, b, now).data.mbpBids| <= d.maxLevels && |Render(d, b, now).data.mbpAsks| <= d.maxLevels
    ensures Render(d, b, now).data.MboUpdate? ==>
      |Render(d, b, now).data.mboBids| <= MboCap(d.maxLevels) &&
      |Render(d, b, now).data.mboAsks| <= MboCap(d.maxLevels)
  {
    if d.dataType == MBO {
      MboSideShape(b, Bid, d.maxLevels, now);
      MboSideShape(b, Ask, d.maxLevels, now);
    } else {
      MbpSideShape(b, Bid, d.maxLevels, now);
      MbpSideShape(b, Ask, d.maxLevels, now);
    }
  }

  // ---------------------------------------------------------------------------------------
  // Iteration orders

  /** Every key of the table once, in whatever order the map yields them. */
  method KeyOrder(t: Table) returns (order: seq<string>)
    ensures Enumerates(order, t)
  {
    var rest := t.Keys;
    order := [];
    while rest != {}
      invariant NoDup(order)
      invariant forall k :: k in t <==> k in order || k in rest
      invariant forall k :: k in order ==> k !in rest
      decreases |rest|
    {
      var k :| k in rest;
      order := order + [k];
      rest := rest - {k};
    }
  }

  /** Every registered client once, in whatever order the map yields them. */
  method ClientOrder(clients: set<ClientId>) returns (order: seq<ClientId>)
    ensures |order| == |clients|
    ensures forall c :: c in order <==> c in clients
  {
    var rest := clients;
    order := [];
    while rest != {}
      invariant |order| + |rest| == |clients|
      invariant forall c :: c in clients <==> c in order || c in rest
      invariant forall c :: c in order ==> c !in rest
      decreases |rest|
    {
      var c :| c in rest;
      order := order + [c];
      rest := rest - {c};
    }
  }
}
