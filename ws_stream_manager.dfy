/** The WebSocket back end's stream manager, restricted to its subscription table: the
    registered clients, symbol → subscriptions, and the symbols that have an order book.
    Senders, the books themselves and the timers are outside the model; a send that can fail
    is an argument saying whether it went through. */
module WsStreamManager {
  import opened Common
  import opened Message
  import opened OrderBookSpec
  import opened SubscriptionTable

  const SnapshotFailed: string := "Failed to send initial snapshot"

  /** The first pass of `unregister_client`: every list filtered of the client. */
  function WithoutClientEverywhere(t: Table, client: ClientId): Table {
    map k | k in t :: WithoutClient(t[k], client)
  }

  /** `unregister_client`'s effect on the table: filter every list, then drop the empty ones. */
  function DropClient(t: Table, client: ClientId): Table {
    DropEmpty(WithoutClientEverywhere(t, client))
  }

  /** Teardown is complete: no subscription of the client is left anywhere. */
  lemma DropClientComplete(t: Table, client: ClientId)
    ensures forall k, s :: k in DropClient(t, client) && s in DropClient(t, client)[k] ==> s.clientId != client
  {
  }

  /** Nothing else changes: every other client's subscription stays in its list, and nothing
      is added; each symbol's list is the old one with the client's entries taken out, the
      rest in their order (a list that held only the client's entries is gone). */
  lemma DropClientKeepsOthers(t: Table, client: ClientId)
    ensures forall k, s :: k in t && s in t[k] && s.clientId != client ==>
      k in DropClient(t, client) && s in DropClient(t, client)[k]
    ensures forall k, s :: k in DropClient(t, client) && s in DropClient(t, client)[k] ==> k in t && s in t[k]
    ensures forall k :: Lookup(DropClient(t, client), k) == WithoutClient(Lookup(t, k), client)
  {
    forall k, s | k in t && s in t[k] && s.clientId != client
      ensures k in DropClient(t, client) && s in DropClient(t, client)[k]
    {
      assert s in WithoutClient(t[k], client);
    }
    forall k ensures Lookup(DropClient(t, client), k) == WithoutClient(Lookup(t, k), client) {
      assert WithoutClient([], client) == [];
    }
  }

  /** For every client that stays registered, a tick after the unregister sends the same
      messages, in the same order, as a tick before it. */
  lemma DropClientServesOthers(t: Table, client: ClientId, clients: set<ClientId>, symbol: string)
    requires client !in clients
    ensures TickDeliveries(Lookup(DropClient(t, client), symbol), clients, symbol) ==
      TickDeliveries(Lookup(t, symbol), clients, symbol)
  {
    DropClientKeepsOthers(t, client);
    TickDeliveriesWithoutClient(Lookup(t, symbol), client, clients, symbol);
  }

  /** The clean-up leaves no empty list behind. */
  lemma DropClientNoEmpty(t: Table, client: ClientId)
    ensures forall k :: k in DropClient(t, client) ==> |DropClient(t, client)[k]| > 0
  {
  }

  /** Unregistering twice is the same as once. */
  lemma DropClientIdempotent(t: Table, client: ClientId)
    ensures DropClient(DropClient(t, client), client) == DropClient(t, client)
  {
    var once := DropClient(t, client);
    var filtered := WithoutClientEverywhere(once, client);
    forall k | k in once
      ensures filtered[k] == once[k]
    {
      forall i | 0 <= i < |once[k]| ensures once[k][i].clientId != client {
        assert once[k][i] in WithoutClient(t[k], client);
      }
    }
    assert filtered == once;
    DropEmptyEffect(WithoutClientEverywhere(t, client));
    assert DropEmpty(once) == once;
  }

  /** The `iter_mut` pass of `unregister_client`, list by list in whatever order the map yields. */
  method FilterEveryList(t: Table, client: ClientId) returns (r: Table)
    ensures r == WithoutClientEverywhere(t, client)
  {
    r := t;
    var rest := t.Keys;
    while rest != {}
      invariant rest <= t.Keys && r.Keys == t.Keys
      invariant forall k :: k in t ==> r[k] == if k in rest then t[k] else WithoutClient(t[k], client)
      decreases |rest|
    {
      var k :| k in rest;
      r := r[k := WithoutClient(r[k], client)];
      rest := rest - {k};
    }
  }

  datatype WsTables = WsTables(subscriptions: Table, clients: set<ClientId>, symbols: set<string>)

  /** A subscription made by a registered client is served on the next tick of its symbol,
      with the very stream id, kind and depth the initial snapshot used. */
  lemma SubscribedClientIsServed(t: Table, clients: set<ClientId>, client: ClientId, streamId: string,
                                 symbol: string, dataType: DataType, maxLevels: Option<U32>)
    requires client in clients
    ensures Delivery(client, streamId, symbol, dataType, maxLevels.GetOr(DefaultMaxLevels)) in
      TickDeliveries(Lookup(Push(t, symbol, NewSubscription(streamId, symbol, dataType, maxLevels, client)), symbol),
                     clients, symbol)
  {
    var s := NewSubscription(streamId, symbol, dataType, maxLevels, client);
    var subs := Lookup(Push(t, symbol, s), symbol);
    var d := Delivery(client, streamId, symbol, dataType, maxLevels.GetOr(DefaultMaxLevels));
    PushEffect(t, symbol, s);
    assert subs[|subs| - 1] == s;
    TickDeliveriesExact(subs, clients, symbol, d);
  }

  /** Subscribing never rejects a repeated stream id: the same request twice leaves two
      identical entries at the end of the list. */
  lemma DuplicatesAccepted(t: Table, symbol: string, s: Subscription)
    ensures Lookup(Push(Push(t, symbol, s), symbol, s), symbol) == Lookup(t, symbol) + [s, s]
  {
    PushEffect(t, symbol, s);
    PushEffect(Push(t, symbol, s), symbol, s);
  }

  class WsStreamManager {
    var subscriptions: Table
    var clients: set<ClientId>
    var symbols: set<string>

    function State(): WsTables
      reads this
    {
      WsTables(subscriptions, clients, symbols)
    }

    /** `StreamManager::new`. */
    constructor ()
      ensures State() == WsTables(map[], {}, {})
    {
      subscriptions := map[];
      clients := {};
      symbols := {};
    }

    /** `register_client`. */
    method RegisterClient(client: ClientId)
      modifies this
      ensures State() == old(State()).(clients := old(clients) + {client})
    {
      clients := clients + {client};
    }

    /** `unregister_client`: drop the sender, filter every list, then drop the empty lists. */
    method UnregisterClient(client: ClientId)
      modifies this
      ensures State() == old(State()).(clients := old(clients) - {client},
                                       subscriptions := DropClient(old(subscriptions), client))
    {
      clients := clients - {client};
      subscriptions := FilterEveryList(subscriptions, client);
      subscriptions := DropEmptyLists(subscriptions);
    }

    /** `subscribe`: record the symbol's book, append the subscription (depth 20 when none is
        given) and, for a registered client, send the initial snapshot at that same depth.
        Only a refused snapshot makes the call fail, and the subscription stays. */
    method Subscribe(client: ClientId, streamId: string, symbol: string, dataType: DataType,
                     maxLevels: Option<U32>, sendOk: bool)
      returns (outcome: Outcome, snapshot: Option<Delivery>)
      modifies this
      ensures State() == old(State()).(
        symbols := old(symbols) + {symbol},
        subscriptions := Push(old(subscriptions), symbol,
                              NewSubscription(streamId, symbol, dataType, maxLevels, client)))
      ensures snapshot == if client in clients
        then Some(Delivery(client, streamId, symbol, dataType, maxLevels.GetOr(DefaultMaxLevels)))
        else None
      ensures outcome == if client in clients && !sendOk then Fail(SnapshotFailed) else Pass
    {
      symbols := symbols + {symbol};
      var subscription := NewSubscription(streamId, symbol, dataType, maxLevels, client);
      subscriptions := subscriptions[symbol := Lookup(subscriptions, symbol) + [subscription]];
      snapshot := None;
      outcome := Pass;
      if client in clients {
        snapshot := Some(Delivery(client, streamId, symbol, dataType, maxLevels.GetOr(DefaultMaxLevels)));
        if !sendOk {
          outcome := Fail(SnapshotFailed);
        }
      }
    }

    /** `unsubscribe`: walk the lists in iteration order `order`, filter the first one that
        holds a match and report it; emptied lists are kept. */
    method Unsubscribe(client: ClientId, streamId: string) returns (removed: bool, ghost order: seq<string>)
      modifies this
      ensures Enumerates(order, old(subscriptions))
      ensures removed == FirstMatch(old(subscriptions), order, client, streamId).Some?
      ensures State() == old(State()).(subscriptions := Unsubscribed(old(subscriptions), order, client, streamId))
    {
      var keys := KeyOrder(subscriptions);
      order := keys;
      var i := 0;
      while i < |keys|
        invariant 0 <= i <= |keys|
        invariant FirstMatch(subscriptions, keys, client, streamId) == FirstMatch(subscriptions, keys[i..], client, streamId)
      {
        var k := keys[i];
        var before := subscriptions[k];
        var after := WithoutStream(before, client, streamId);
        assert keys[i..][1..] == keys[i + 1..];
        if |after| != |before| {
          subscriptions := subscriptions[k := after];
          return true, order;
        }
        i := i + 1;
      }
      removed := false;
    }

    /** The fan-out of one tick for `symbol`: one delivery per subscription on it whose client
        is registered. */
    method Tick(symbol: string) returns (deliveries: seq<Delivery>)
      ensures deliveries == TickDeliveries(Lookup(subscriptions, symbol), clients, symbol)
    {
      deliveries := FanOut(subscriptions, clients, symbol);
    }

    /** The heartbeat goes to every registered client once, whatever it subscribed to. */
    method Heartbeat() returns (recipients: seq<ClientId>)
      ensures |recipients| == |clients|
      ensures forall c :: c in recipients <==> c in clients
    {
      recipients := ClientOrder(clients);
    }
  }
}
