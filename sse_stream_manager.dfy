/** The SSE back end's stream manager, restricted to its tables: the registered clients,
    symbol → subscriptions, client → the stream ids it subscribed to, and the symbols that
    have an order book. Senders, the books themselves and the timers are outside the model;
    each initial snapshot send is an argument saying whether it went through. */
module SseStreamManager {
  import opened Common
  import opened Text
  import opened Message
  import opened OrderBookSpec
  import opened SubscriptionTable

  const SnapshotFailed: string := "Failed to send initial snapshot"

  // ---------------------------------------------------------------------------------------
  // Stream ids

  /** `format!("{}_{:?}_{}", symbol, data_type, max_levels)`. */
  function StreamId(symbol: string, dataType: DataType, maxLevels: U32): string {
    symbol + "_" + DataTypeName(dataType) + "_" + NatToString(maxLevels)
  }

  function IdOf(d: StreamDef): string {
    StreamId(d.symbol, d.dataType, d.maxLevels)
  }

  lemma SeparatedDigits(a: string, t: string)
    requires AllDigits(t)
    ensures (a + "_" + t)[|a|] == '_'
    ensures forall j :: |a| + 1 <= j < |a + "_" + t| ==> IsDigit((a + "_" + t)[j])
  {
    forall j | |a| + 1 <= j < |a + "_" + t| ensures IsDigit((a + "_" + t)[j]) {
      assert (a + "_" + t)[j] == t[j - |a| - 1];
    }
  }

  /** Distinct definitions get distinct stream ids, whatever the symbol contains: the depth is
      the digits after the last `_`, the kind the three letters before it, and the symbol the
      rest. */
  lemma StreamIdInjective(s1: string, d1: DataType, l1: U32, s2: string, d2: DataType, l2: U32)
    requires StreamId(s1, d1, l1) == StreamId(s2, d2, l2)
    ensures s1 == s2 && d1 == d2 && l1 == l2
  {
    var x := StreamId(s1, d1, l1);
    var a1, a2 := s1 + "_" + DataTypeName(d1), s2 + "_" + DataTypeName(d2);
    var t1, t2 := NatToString(l1), NatToString(l2);
    NatToStringDigits(l1);
    NatToStringDigits(l2);
    assert x == a1 + "_" + t1 && x == a2 + "_" + t2;
    SeparatedDigits(a1, t1);
    SeparatedDigits(a2, t2);
    if |a1| > |a2| {
      assert false;
    } else if |a1| < |a2| {
      assert false;
    } else {
      assert a1 == x[..|a1|] == a2;
      assert t1 == x[|a1| + 1..] == t2;
      assert DataTypeName(d1) == a1[|s1| + 1..] == DataTypeName(d2);
      assert s1 == a1[..|s1|] == s2;
    }
  }

  // ---------------------------------------------------------------------------------------
  // The tables and their invariants

  datatype SseTables = SseTables(
    subscriptions: Table,
    clients: set<ClientId>,
    clientStreams: map<ClientId, seq<string>>,
    symbols: set<string>)

  /** The stream ids recorded for `client`, or none. */
  function Streams(cs: map<ClientId, seq<string>>, client: ClientId): seq<string> {
    if client in cs then cs[client] else []
  }

  /** Every subscription sits under its own symbol and carries the stream id its definition
      formats to, as `subscribe_to_streams` files them. */
  ghost predicate WellKeyed(t: Table) {
    forall k, i :: k in t && 0 <= i < |t[k]| ==>
      t[k][i].symbol == k && t[k][i].streamId == StreamId(k, t[k][i].dataType, t[k][i].maxLevels)
  }

  /** Every subscription's stream id is listed for its client. */
  ghost predicate Tracked(st: SseTables) {
    forall k, i :: k in st.subscriptions && 0 <= i < |st.subscriptions[k]| ==>
      st.subscriptions[k][i].streamId in Streams(st.clientStreams, st.subscriptions[k][i].clientId)
  }

  /** In a well-keyed table the subscriptions with a given client and stream id all sit in one
      list, because the stream id names the symbol. */
  lemma MatchesInOneList(t: Table, client: ClientId, streamId: string, k1: string, k2: string)
    requires WellKeyed(t)
    requires k1 in t && HasMatch(t[k1], client, streamId)
    requires k2 in t && HasMatch(t[k2], client, streamId)
    ensures k1 == k2
  {
    var i1 :| 0 <= i1 < |t[k1]| && Matches(t[k1][i1], client, streamId);
    var i2 :| 0 <= i2 < |t[k2]| && Matches(t[k2][i2], client, streamId);
    StreamIdInjective(k1, t[k1][i1].dataType, t[k1][i1].maxLevels, k2, t[k2][i2].dataType, t[k2][i2].maxLevels);
  }

  /** The map with every list filtered of `(client, streamId)`. */
  function WithoutStreamEverywhere(t: Table, client: ClientId, streamId: string): Table {
    map k | k in t :: WithoutStream(t[k], client, streamId)
  }

  /** In a well-keyed table the unsubscribe loop's iteration order does not matter: stopping
      at the first matching list removes every match there is. */
  lemma UnsubscribedIsOrderFree(t: Table, order: seq<string>, client: ClientId, streamId: string)
    requires WellKeyed(t) && Covers(order, t)
    ensures Unsubscribed(t, order, client, streamId) == WithoutStreamEverywhere(t, client, streamId)
  {
    if FirstMatch(t, order, client, streamId).None? {
      FirstMatchFound(t, order, client, streamId);
      NoMatchAnywhere(t, client, streamId);
    } else {
      OnlyMatchesAt(t, client, streamId, FirstMatch(t, order, client, streamId).value);
    }
  }

  /** With no match in any list, the filter changes nothing. */
  lemma NoMatchAnywhere(t: Table, client: ClientId, streamId: string)
    requires forall k :: k in t ==> !HasMatch(t[k], client, streamId)
    ensures WithoutStreamEverywhere(t, client, streamId) == t
  {
    var w := WithoutStreamEverywhere(t, client, streamId);
    assert w.Keys == t.Keys;
  }

  /** With every match in the list at `k0`, filtering that list is filtering them all. */
  lemma OnlyMatchesAt(t: Table, client: ClientId, streamId: string, k0: string)
    requires WellKeyed(t) && k0 in t && HasMatch(t[k0], client, streamId)
    ensures t[k0 := WithoutStream(t[k0], client, streamId)] == WithoutStreamEverywhere(t, client, streamId)
  {
    var r := t[k0 := WithoutStream(t[k0], client, streamId)];
    var w := WithoutStreamEverywhere(t, client, streamId);
    forall k | k in t ensures w[k] == r[k] {
      if k != k0 && HasMatch(t[k], client, streamId) {
        MatchesInOneList(t, client, streamId, k, k0);
      }
    }
    assert r.Keys == w.Keys;
  }

  // ---------------------------------------------------------------------------------------
  // register_client / subscribe_to_streams

  /** `register_client`: the client is registered with an empty stream list, even if it had
      one. */
  function RegisterSpec(st: SseTables, client: ClientId): SseTables {
    st.(clients := st.clients + {client}, clientStreams := st.clientStreams[client := []])
  }

  /** One definition's table updates: the symbol's book, the subscription under its symbol,
      and its stream id at the end of the client's list. */
  function SubscribeOne(st: SseTables, client: ClientId, d: StreamDef): SseTables {
    st.(symbols := st.symbols + {d.symbol},
        subscriptions := Push(st.subscriptions, d.symbol,
                              NewSubscription(IdOf(d), d.symbol, d.dataType, Some(d.maxLevels), client)),
        clientStreams := st.clientStreams[client := Streams(st.clientStreams, client) + [IdOf(d)]])
  }

  /** The tables after the definitions were registered one after the other. */
  function Registered(st: SseTables, client: ClientId, defs: seq<StreamDef>): SseTables
    decreases |defs|
  {
    if |defs| == 0 then st
    else SubscribeOne(Registered(st, client, defs[..|defs| - 1]), client, defs[|defs| - 1])
  }

  function SnapshotOf(client: ClientId, d: StreamDef): Delivery {
    Delivery(client, IdOf(d), d.symbol, d.dataType, d.maxLevels)
  }

  /** The initial snapshots of the definitions, in order. */
  function Snapshots(client: ClientId, defs: seq<StreamDef>): (r: seq<Delivery>)
    ensures |r| == |defs|
    decreases |defs|
  {
    if |defs| == 0 then []
    else Snapshots(client, defs[..|defs| - 1]) + [SnapshotOf(client, defs[|defs| - 1])]
  }

  /** The position of the first refused send, or the length when none was refused. */
  function FirstRefused(sendOk: seq<bool>): (k: nat)
    ensures k <= |sendOk|
    ensures forall j :: 0 <= j < k ==> sendOk[j]
    ensures k < |sendOk| ==> !sendOk[k]
    decreases |sendOk|
  {
    if |sendOk| == 0 || !sendOk[0] then 0 else 1 + FirstRefused(sendOk[1..])
  }

  datatype SubscribeResult = SubscribeResult(tables: SseTables, outcome: Outcome, sent: seq<Delivery>)

  /** How many definitions the call gets through: for a registered client, up to and
      including the first refused send; otherwise all of them. */
  function Processed(registered: bool, sendOk: seq<bool>): (n: nat)
    ensures n <= |sendOk|
  {
    if registered && FirstRefused(sendOk) < |sendOk| then FirstRefused(sendOk) + 1 else |sendOk|
  }

  /** `subscribe_to_streams` without its loop: a registered client has a snapshot sent per
      definition, and the first refused send ends the call with an error after its own
      definition was registered; an unregistered client gets every definition registered and
      no snapshot. */
  function SubscribeSpec(st: SseTables, client: ClientId, defs: seq<StreamDef>, sendOk: seq<bool>): SubscribeResult
    requires |sendOk| == |defs|
  {
    var registered := client in st.clients;
    var k := FirstRefused(sendOk);
    SubscribeResult(Registered(st, client, defs[..Processed(registered, sendOk)]),
                    if registered && k < |defs| then Fail(SnapshotFailed) else Pass,
                    if registered then Snapshots(client, defs[..k]) else [])
  }

  /** The stream ids of the definitions, in order. */
  function StreamIds(defs: seq<StreamDef>): (r: seq<string>)
    ensures |r| == |defs|
    decreases |defs|
  {
    if |defs| == 0 then [] else StreamIds(defs[..|defs| - 1]) + [IdOf(defs[|defs| - 1])]
  }

  /** Registering definitions appends their stream ids to the client's list in definition
      order; no other client's list, and no registration, changes. */
  lemma {:induction false} RegisteredStreams(st: SseTables, client: ClientId, defs: seq<StreamDef>)
    ensures Streams(Registered(st, client, defs).clientStreams, client) ==
      Streams(st.clientStreams, client) + StreamIds(defs)
    ensures forall c :: c != client ==>
      Streams(Registered(st, client, defs).clientStreams, c) == Streams(st.clientStreams, c)
    ensures Registered(st, client, defs).clients == st.clients
    decreases |defs|
  {
    if |defs| > 0 {
      var init := defs[..|defs| - 1];
      RegisteredStreams(st, client, init);
    }
  }

  /** The subscriptions the definitions add under `symbol`, in order. */
  function SubscriptionsOn(client: ClientId, defs: seq<StreamDef>, symbol: string): seq<Subscription>
    decreases |defs|
  {
    if |defs| == 0 then []
    else
      var d := defs[|defs| - 1];
      SubscriptionsOn(client, defs[..|defs| - 1], symbol) +
      (if d.symbol == symbol then [NewSubscription(IdOf(d), d.symbol, d.dataType, Some(d.maxLevels), client)] else [])
  }

  /** Registering definitions appends to each symbol's list the subscriptions for that symbol,
      in definition order, and leaves the rest of every list as it was. */
  lemma {:induction false} RegisteredSubscriptions(st: SseTables, client: ClientId, defs: seq<StreamDef>, symbol: string)
    ensures Lookup(Registered(st, client, defs).subscriptions, symbol) ==
      Lookup(st.subscriptions, symbol) + SubscriptionsOn(client, defs, symbol)
    decreases |defs|
  {
    if |defs| > 0 {
      var init := defs[..|defs| - 1];
      RegisteredSubscriptions(st, client, init, symbol);
      var d := defs[|defs| - 1];
      PushEffect(Registered(st, client, init).subscriptions, d.symbol,
                 NewSubscription(IdOf(d), d.symbol, d.dataType, Some(d.maxLevels), client));
    }
  }

  /** Registration keeps every subscription under its own symbol with its formatted id. */
  lemma {:induction false} RegisteredKeepsWellKeyed(st: SseTables, client: ClientId, defs: seq<StreamDef>)
    requires WellKeyed(st.subscriptions)
    ensures WellKeyed(Registered(st, client, defs).subscriptions)
    decreases |defs|
  {
    if |defs| > 0 {
      var init := defs[..|defs| - 1];
      RegisteredKeepsWellKeyed(st, client, init);
      var before := Registered(st, client, init);
      var d := defs[|defs| - 1];
      var t: Table := Registered(st, client, defs).subscriptions;
      PushEffect(before.subscriptions, d.symbol,
                 NewSubscription(IdOf(d), d.symbol, d.dataType, Some(d.maxLevels), client));
      forall k: string, i: int | k in t && 0 <= i < |t[k]|
        ensures t[k][i].symbol == k && t[k][i].streamId == StreamId(k, t[k][i].dataType, t[k][i].maxLevels)
      {
        if k != d.symbol || i < |Lookup(before.subscriptions, d.symbol)| {
          assert t[k][i] == before.subscriptions[k][i];
        }
      }
    }
  }

  /** Registration keeps every subscription's stream id listed for its client. */
  lemma {:induction false} RegisteredKeepsTracked(st: SseTables, client: ClientId, defs: seq<StreamDef>)
    requires Tracked(st)
    ensures Tracked(Registered(st, client, defs))
    decreases |defs|
  {
    if |defs| > 0 {
      var init := defs[..|defs| - 1];
      RegisteredKeepsTracked(st, client, init);
      var before := Registered(st, client, init);
      var d := defs[|defs| - 1];
      var after := Registered(st, client, defs);
      var t: Table := after.subscriptions;
      PushEffect(before.subscriptions, d.symbol,
                 NewSubscription(IdOf(d), d.symbol, d.dataType, Some(d.maxLevels), client));
      forall k: string, i: int | k in t && 0 <= i < |t[k]|
        ensures t[k][i].streamId in Streams(after.clientStreams, t[k][i].clientId)
      {
        var s := t[k][i];
        if k != d.symbol || i < |Lookup(before.subscriptions, d.symbol)| {
          assert s == before.subscriptions[k][i];
          assert s.streamId in Streams(before.clientStreams, s.clientId);
        }
      }
    }
  }

  /** Registering a client that holds no subscription, as the handlers do with a fresh id,
      keeps every subscription tracked; the table itself is not touched. */
  lemma RegisterKeepsTracked(st: SseTables, client: ClientId)
    requires Tracked(st)
    requires forall k, i :: k in st.subscriptions && 0 <= i < |st.subscriptions[k]| ==>
      st.subscriptions[k][i].clientId != client
    ensures Tracked(RegisterSpec(st, client))
    ensures RegisterSpec(st, client).subscriptions == st.subscriptions
  {
    var after := RegisterSpec(st, client);
    forall k, i | k in st.subscriptions && 0 <= i < |st.subscriptions[k]|
      ensures st.subscriptions[k][i].streamId in Streams(after.clientStreams, st.subscriptions[k][i].clientId)
    {
      var s := st.subscriptions[k][i];
      assert Streams(after.clientStreams, s.clientId) == Streams(st.clientStreams, s.clientId);
    }
  }

  /** The outcome of `subscribe_to_streams`: it fails exactly when the client is registered
      and some send is refused, and the refusal it stops at is the first one. */
  lemma SubscribeOutcome(st: SseTables, client: ClientId, defs: seq<StreamDef>, sendOk: seq<bool>)
    requires |sendOk| == |defs|
    ensures SubscribeSpec(st, client, defs, sendOk).outcome.Fail? <==>
      client in st.clients && exists j :: 0 <= j < |defs| && !sendOk[j]
    ensures SubscribeSpec(st, client, defs, sendOk).outcome.Fail? ==>
      var k := FirstRefused(sendOk);
      k < |defs| && !sendOk[k] && (forall j :: 0 <= j < k ==> sendOk[j])
  {
    var k := FirstRefused(sendOk);
    if client in st.clients && k == |defs| {
      assert forall j :: 0 <= j < |defs| ==> sendOk[j];
    }
  }

  /** The streams `subscribe_to_streams` records for the client: on failure those of the
      definitions up to and including the first refused one, and no later one; otherwise
      those of every definition. */
  lemma SubscribeStreams(st: SseTables, client: ClientId, defs: seq<StreamDef>, sendOk: seq<bool>)
    requires |sendOk| == |defs|
    ensures var r := SubscribeSpec(st, client, defs, sendOk);
      r.outcome.Fail? ==>
        Streams(r.tables.clientStreams, client) ==
          Streams(st.clientStreams, client) + StreamIds(defs[..FirstRefused(sendOk) + 1])
    ensures var r := SubscribeSpec(st, client, defs, sendOk);
      r.outcome.Pass? ==>
        Streams(r.tables.clientStreams, client) ==
          Streams(st.clientStreams, client) + StreamIds(defs)
  {
    var k := FirstRefused(sendOk);
    var n := Processed(client in st.clients, sendOk);
    var r := SubscribeSpec(st, client, defs, sendOk);
    assert r.tables == Registered(st, client, defs[..n]);
    RegisteredStreams(st, client, defs[..n]);
    if client in st.clients && k < |defs| {
      assert n == k + 1;
    } else {
      assert n == |defs| && defs[..n] == defs;
    }
  }

  /** A registered client whose sends went through up to `i`, and not at `i`, ends the call
      there: `defs[..i + 1]` registered, an error, and the snapshots before `i` sent. */
  lemma SpecOnRefusal(st: SseTables, client: ClientId, defs: seq<StreamDef>, sendOk: seq<bool>, i: nat)
    requires |sendOk| == |defs| && i < |defs| && client in st.clients
    requires i <= FirstRefused(sendOk) && !sendOk[i]
    ensures SubscribeSpec(st, client, defs, sendOk)
      == SubscribeResult(Registered(st, client, defs[..i + 1]), Fail(SnapshotFailed), Snapshots(client, defs[..i]))
  {
    assert FirstRefused(sendOk) == i;
  }

  /** Without a refused send (or without a sender), every definition is registered and the call
      succeeds. */
  lemma SpecOnCompletion(st: SseTables, client: ClientId, defs: seq<StreamDef>, sendOk: seq<bool>)
    requires |sendOk| == |defs|
    requires client in st.clients ==> |defs| <= FirstRefused(sendOk)
    ensures SubscribeSpec(st, client, defs, sendOk)
      == SubscribeResult(Registered(st, client, defs), Pass,
                        if client in st.clients then Snapshots(client, defs) else [])
  {
    assert defs[..|defs|] == defs;
  }

  lemma RegisteredStep(st: SseTables, client: ClientId, defs: seq<StreamDef>, i: nat)
    requires i < |defs|
    ensures Registered(st, client, defs[..i + 1]) == SubscribeOne(Registered(st, client, defs[..i]), client, defs[i])
  {
    assert defs[..i + 1][..i] == defs[..i];
  }

  lemma SnapshotsStep(client: ClientId, defs: seq<StreamDef>, i: nat)
    requires i < |defs|
    ensures Snapshots(client, defs[..i + 1]) == Snapshots(client, defs[..i]) + [SnapshotOf(client, defs[i])]
  {
    assert defs[..i + 1][..i] == defs[..i];
  }

  // ---------------------------------------------------------------------------------------
  // remove_subscription / unregister_client

  /** `remove_subscription`: the unsubscribe loop over iteration order `order`, then the clean-up
      of every empty list. */
  function RemoveSubscriptionSpec(t: Table, order: seq<string>, client: ClientId, streamId: string): Table {
    DropEmpty(Unsubscribed(t, order, client, streamId))
  }

  /** The removals of `unregister_client`, one per listed stream id, each with its own
      iteration order. */
  function RemoveAll(t: Table, client: ClientId, streams: seq<string>, orders: seq<seq<string>>): Table
    requires |orders| == |streams|
    decreases |streams|
  {
    if |streams| == 0 then t
    else
      var n := |streams| - 1;
      RemoveSubscriptionSpec(RemoveAll(t, client, streams[..n], orders[..n]), orders[n], client, streams[n])
  }

  /** Each removal walks every list present at its turn. */
  ghost predicate OrdersEnumerate(t: Table, client: ClientId, streams: seq<string>, orders: seq<seq<string>>)
    requires |orders| == |streams|
    decreases |streams|
  {
    |streams| == 0 ||
    var n := |streams| - 1;
    OrdersEnumerate(t, client, streams[..n], orders[..n]) &&
    Enumerates(orders[n], RemoveAll(t, client, streams[..n], orders[..n]))
  }

  /** What the removals of `unregister_client` leave of one list: every subscription except
      the client's subscriptions to one of `streams`, in the order they were made. */
  function WithoutStreams(subs: seq<Subscription>, client: ClientId, streams: seq<string>): (r: seq<Subscription>)
    ensures forall s :: s in r <==> s in subs && !(s.clientId == client && s.streamId in streams)
    ensures (forall i :: 0 <= i < |subs| ==> !(subs[i].clientId == client && subs[i].streamId in streams)) ==> r == subs
    decreases |subs|
  {
    if |subs| == 0 then []
    else
      var rest := WithoutStreams(subs[1..], client, streams);
      assert subs == [subs[0]] + subs[1..];
      if subs[0].clientId == client && subs[0].streamId in streams then rest else [subs[0]] + rest
  }

  /** The filter keeps order: a concatenation is filtered part by part, and a one-element list
      loses its element exactly when it is one of the client's listed streams. */
  lemma {:induction false} WithoutStreamsAppend(a: seq<Subscription>, b: seq<Subscription>,
                                                client: ClientId, streams: seq<string>)
    ensures WithoutStreams(a + b, client, streams) ==
      WithoutStreams(a, client, streams) + WithoutStreams(b, client, streams)
    ensures forall s ::
      WithoutStreams([s], client, streams) == (if s.clientId == client && s.streamId in streams then [] else [s])
    decreases |a|
  {
    if |a| > 0 {
      assert (a + b)[1..] == a[1..] + b;
      WithoutStreamsAppend(a[1..], b, client, streams);
    } else {
      assert a + b == b;
    }
  }

  /** One more removal of `unregister_client` filters one more stream id. */
  lemma {:induction false} WithoutStreamsStep(subs: seq<Subscription>, client: ClientId, streams: seq<string>, x: string)
    ensures WithoutStream(WithoutStreams(subs, client, streams), client, x) == WithoutStreams(subs, client, streams + [x])
    decreases |subs|
  {
    if |subs| > 0 {
      WithoutStreamsStep(subs[1..], client, streams, x);
      var w := WithoutStreams(subs[1..], client, streams);
      var head := WithoutStreams([subs[0]], client, streams);
      WithoutStreamsAppend([subs[0]], subs[1..], client, streams);
      assert [subs[0]] + subs[1..] == subs;
      WithoutStreamAppend(head, w, client, x);
      assert subs[0].streamId in streams + [x] <==> subs[0].streamId in streams || subs[0].streamId == x;
    }
  }

  /** This filter only ever takes out subscriptions of `client`. */
  lemma {:induction false} WithoutStreamsOnlyClient(subs: seq<Subscription>, client: ClientId, streams: seq<string>)
    ensures WithoutClient(WithoutStreams(subs, client, streams), client) == WithoutClient(subs, client)
    decreases |subs|
  {
    if |subs| > 0 {
      WithoutStreamsOnlyClient(subs[1..], client, streams);
      var w := WithoutStreams(subs[1..], client, streams);
      var head := WithoutStreams([subs[0]], client, streams);
      WithoutStreamsAppend([subs[0]], subs[1..], client, streams);
      assert [subs[0]] + subs[1..] == subs;
      WithoutClientAppend(head, w, client);
      WithoutClientAppend([subs[0]], subs[1..], client);
    }
  }

  /** One `remove_subscription` of a well-keyed table filters every list of one more stream id
      and drops the lists that empties. */
  lemma RemovalFiltersLists(prev: Table, t: Table, order: seq<string>, client: ClientId, streams: seq<string>, x: string)
    requires WellKeyed(prev) && Covers(order, prev)
    requires forall k :: Lookup(prev, k) == WithoutStreams(Lookup(t, k), client, streams)
    ensures forall k ::
      Lookup(RemoveSubscriptionSpec(prev, order, client, x), k) == WithoutStreams(Lookup(t, k), client, streams + [x])
  {
    UnsubscribedIsOrderFree(prev, order, client, x);
    var w := WithoutStreamEverywhere(prev, client, x);
    forall k ensures Lookup(DropEmpty(w), k) == WithoutStreams(Lookup(t, k), client, streams + [x]) {
      WithoutStreamsStep(Lookup(t, k), client, streams, x);
      assert Lookup(prev, k) == WithoutStreams(Lookup(t, k), client, streams);
    }
  }

  /** `unregister_client`: forget the stream list, remove a subscription per listed id, drop the
      sender. */
  function UnregisterSpec(st: SseTables, client: ClientId, orders: seq<seq<string>>): SseTables
    requires |orders| == |Streams(st.clientStreams, client)|
  {
    st.(clientStreams := st.clientStreams - {client},
        clients := st.clients - {client},
        subscriptions := RemoveAll(st.subscriptions, client, Streams(st.clientStreams, client), orders))
  }

  /** In a well-keyed table the removals take out exactly the client's subscriptions to the
      listed streams, whatever the iteration orders, and leave no empty list. */
  lemma {:induction false} RemoveAllExact(t: Table, client: ClientId, streams: seq<string>, orders: seq<seq<string>>)
    requires |orders| == |streams|
    requires WellKeyed(t)
    requires OrdersEnumerate(t, client, streams, orders)
    ensures WellKeyed(RemoveAll(t, client, streams, orders))
    ensures forall k, s :: k in RemoveAll(t, client, streams, orders) && s in RemoveAll(t, client, streams, orders)[k] <==>
      k in t && s in t[k] && !(s.clientId == client && s.streamId in streams)
    ensures |streams| > 0 ==> forall k :: k in RemoveAll(t, client, streams, orders) ==> |RemoveAll(t, client, streams, orders)[k]| > 0
    decreases |streams|
  {
    if |streams| > 0 {
      var n := |streams| - 1;
      var prev := RemoveAll(t, client, streams[..n], orders[..n]);
      RemoveAllExact(t, client, streams[..n], orders[..n]);
      UnsubscribedIsOrderFree(prev, orders[n], client, streams[n]);
      var w := WithoutStreamEverywhere(prev, client, streams[n]);
      var r: Table := RemoveAll(t, client, streams, orders);
      assert r == DropEmpty(w);
      assert forall x :: x in streams <==> x in streams[..n] || x == streams[n] by {
        assert streams == streams[..n] + [streams[n]];
      }
      forall k: string, i: int | k in r && 0 <= i < |r[k]|
        ensures r[k][i].symbol == k && r[k][i].streamId == StreamId(k, r[k][i].dataType, r[k][i].maxLevels)
      {
        assert r[k][i] in prev[k];
        var j := IndexOf(prev[k], r[k][i]);
      }
      forall k, s | k in t && s in t[k] && !(s.clientId == client && s.streamId in streams)
        ensures k in r && s in r[k]
      {
        assert s in w[k];
      }
    }
  }

  /** Each list after the removals is the old one filtered of the client's subscriptions to
      the listed streams, the survivors in their order (an emptied list is gone). */
  lemma {:induction false} RemoveAllFilters(t: Table, client: ClientId, streams: seq<string>, orders: seq<seq<string>>)
    requires |orders| == |streams|
    requires WellKeyed(t)
    requires OrdersEnumerate(t, client, streams, orders)
    ensures forall k :: Lookup(RemoveAll(t, client, streams, orders), k) == WithoutStreams(Lookup(t, k), client, streams)
    decreases |streams|
  {
    if |streams| > 0 {
      var n := |streams| - 1;
      var prev := RemoveAll(t, client, streams[..n], orders[..n]);
      RemoveAllExact(t, client, streams[..n], orders[..n]);
      RemoveAllFilters(t, client, streams[..n], orders[..n]);
      RemovalFiltersLists(prev, t, orders[n], client, streams[..n], streams[n]);
      assert streams[..n] + [streams[n]] == streams;
    }
  }

  /** Teardown is complete for a client whose subscriptions were all made through
      `subscribe_to_streams`: afterwards no subscription of it remains, every other client's
      subscription is where it was, and nothing was added. */
  lemma UnregisterComplete(st: SseTables, client: ClientId, orders: seq<seq<string>>)
    requires WellKeyed(st.subscriptions) && Tracked(st)
    requires |orders| == |Streams(st.clientStreams, client)|
    requires OrdersEnumerate(st.subscriptions, client, Streams(st.clientStreams, client), orders)
    ensures var t := UnregisterSpec(st, client, orders).subscriptions;
      forall k, s {:trigger s in t[k]} :: k in t && s in t[k] ==> s.clientId != client
    ensures var t := UnregisterSpec(st, client, orders).subscriptions;
      forall k, s {:trigger s in st.subscriptions[k]} :: k in st.subscriptions && s in st.subscriptions[k] && s.clientId != client ==> k in t && s in t[k]
    ensures var t := UnregisterSpec(st, client, orders).subscriptions;
      forall k, s {:trigger s in t[k]} :: k in t && s in t[k] ==> k in st.subscriptions && s in st.subscriptions[k]
  {
    var streams := Streams(st.clientStreams, client);
    RemoveAllExact(st.subscriptions, client, streams, orders);
    NoneOfClientLeft(st, client, UnregisterSpec(st, client, orders).subscriptions);
  }

  /** Each symbol's list after the unregister is the old one filtered of the client's listed
      streams, and so, for every client that stays registered, a tick after it sends the same
      messages, in the same order, as a tick before it. */
  lemma UnregisterServesOthers(st: SseTables, client: ClientId, orders: seq<seq<string>>,
                               clients: set<ClientId>, symbol: string)
    requires WellKeyed(st.subscriptions)
    requires |orders| == |Streams(st.clientStreams, client)|
    requires OrdersEnumerate(st.subscriptions, client, Streams(st.clientStreams, client), orders)
    requires client !in clients
    ensures Lookup(UnregisterSpec(st, client, orders).subscriptions, symbol) ==
      WithoutStreams(Lookup(st.subscriptions, symbol), client, Streams(st.clientStreams, client))
    ensures TickDeliveries(Lookup(UnregisterSpec(st, client, orders).subscriptions, symbol), clients, symbol) ==
      TickDeliveries(Lookup(st.subscriptions, symbol), clients, symbol)
  {
    var streams := Streams(st.clientStreams, client);
    var subs := Lookup(st.subscriptions, symbol);
    RemoveAllFilters(st.subscriptions, client, streams, orders);
    WithoutStreamsOnlyClient(subs, client, streams);
    TickDeliveriesWithoutClient(WithoutStreams(subs, client, streams), client, clients, symbol);
    TickDeliveriesWithoutClient(subs, client, clients, symbol);
  }

  /** Unregistering keeps both invariants, so the teardown theorem applies again to the
      next client: every survivor sits where it is filed, and its client, which is not the one
      removed, still lists its stream id. */
  lemma UnregisterKeepsInvariants(st: SseTables, client: ClientId, orders: seq<seq<string>>)
    requires WellKeyed(st.subscriptions) && Tracked(st)
    requires |orders| == |Streams(st.clientStreams, client)|
    requires OrdersEnumerate(st.subscriptions, client, Streams(st.clientStreams, client), orders)
    ensures WellKeyed(UnregisterSpec(st, client, orders).subscriptions)
    ensures Tracked(UnregisterSpec(st, client, orders))
  {
    var after := UnregisterSpec(st, client, orders);
    var t: Table := after.subscriptions;
    RemoveAllExact(st.subscriptions, client, Streams(st.clientStreams, client), orders);
    UnregisterComplete(st, client, orders);
    forall k: string, i: int | k in t && 0 <= i < |t[k]|
      ensures t[k][i].streamId in Streams(after.clientStreams, t[k][i].clientId)
    {
      var s := t[k][i];
      assert s in t[k];
      var j := IndexOf(st.subscriptions[k], s);
      assert s.streamId in Streams(st.clientStreams, s.clientId);
      assert Streams(after.clientStreams, s.clientId) == Streams(st.clientStreams, s.clientId);
    }
  }

  /** Removing a tracked client's subscriptions to every stream listed for it removes all of
      them. */
  lemma NoneOfClientLeft(st: SseTables, client: ClientId, t: Table)
    requires Tracked(st)
    requires forall k, s {:trigger s in t[k]} :: k in t && s in t[k] ==>
      k in st.subscriptions && s in st.subscriptions[k]
      && !(s.clientId == client && s.streamId in Streams(st.clientStreams, client))
    ensures forall k, s :: k in t && s in t[k] ==> s.clientId != client
  {
    forall k: string, s: Subscription | k in t && s in t[k] ensures s.clientId != client {
      var i := IndexOf(st.subscriptions[k], s);
      assert st.subscriptions[k][i].streamId in Streams(st.clientStreams, st.subscriptions[k][i].clientId);
    }
  }

  /** One more removal, walked over every list of the table it starts from. */
  lemma RemoveAllStep(t: Table, client: ClientId, streams: seq<string>, orders: seq<seq<string>>, i: nat, order: seq<string>)
    requires i < |streams| && |orders| == i
    ensures RemoveAll(t, client, streams[..i + 1], orders + [order]) ==
      RemoveSubscriptionSpec(RemoveAll(t, client, streams[..i], orders), order, client, streams[i])
  {
    assert streams[..i + 1][..i] == streams[..i];
    assert (orders + [order])[..i] == orders;
  }

  lemma OrdersEnumerateStep(t: Table, client: ClientId, streams: seq<string>, orders: seq<seq<string>>, i: nat, order: seq<string>)
    requires i < |streams| && |orders| == i
    requires OrdersEnumerate(t, client, streams[..i], orders)
    requires Enumerates(order, RemoveAll(t, client, streams[..i], orders))
    ensures OrdersEnumerate(t, client, streams[..i + 1], orders + [order])
  {
    assert streams[..i + 1][..i] == streams[..i];
    assert (orders + [order])[..i] == orders;
  }

  // ---------------------------------------------------------------------------------------
  // The manager

  class SseStreamManager {
    var subscriptions: Table
    var clients: set<ClientId>
    var clientStreams: map<ClientId, seq<string>>
    var symbols: set<string>

    function State(): SseTables
      reads this
    {
      SseTables(subscriptions, clients, clientStreams, symbols)
    }

    /** `SSEStreamManager::new`. */
    constructor ()
      ensures State() == SseTables(map[], {}, map[], {})
    {
      subscriptions := map[];
      clients := {};
      clientStreams := map[];
      symbols := {};
    }

    /** `register_client`. */
    method RegisterClient(client: ClientId)
      modifies this
      ensures State() == RegisterSpec(old(State()), client)
    {
      clients := clients + {client};
      clientStreams := clientStreams[client := []];
    }

    /** The table updates `subscribe_to_streams` makes for one definition: the symbol's book,
        the subscription pushed under its symbol and the stream id pushed on the client's list. */
    method AddStream(client: ClientId, d: StreamDef) returns (streamId: string)
      modifies this
      ensures streamId == IdOf(d)
      ensures State() == SubscribeOne(old(State()), client, d)
    {
      symbols := symbols + {d.symbol};
      streamId := StreamId(d.symbol, d.dataType, d.maxLevels);
      var subscription := NewSubscription(streamId, d.symbol, d.dataType, Some(d.maxLevels), client);
      subscriptions := subscriptions[d.symbol := Lookup(subscriptions, d.symbol) + [subscription]];
      clientStreams := clientStreams[client := Streams(clientStreams, client) + [streamId]];
    }

    /** `subscribe_to_streams`: register each definition in turn and, for a registered client,
        send its initial snapshot; `sendOk[i]` says whether the i-th send went through. */
    method SubscribeToStreams(client: ClientId, defs: seq<StreamDef>, sendOk: seq<bool>)
      returns (outcome: Outcome, sent: seq<Delivery>)
      requires |sendOk| == |defs|
      modifies this
      ensures State() == SubscribeSpec(old(State()), client, defs, sendOk).tables
      ensures outcome == SubscribeSpec(old(State()), client, defs, sendOk).outcome
      ensures sent == SubscribeSpec(old(State()), client, defs, sendOk).sent
    {
      ghost var st0 := State();
      ghost var at: nat;
      outcome, sent, at := RegisterStreams(client, defs, sendOk);
      if outcome.Fail? {
        SpecOnRefusal(st0, client, defs, sendOk, at);
      } else {
        SpecOnCompletion(st0, client, defs, sendOk);
      }
    }

    /** The loop of `subscribe_to_streams`. It either gets through every definition, or stops
        with an error at the first definition `at` whose snapshot could not be sent, after
        registering that definition. */
    method RegisterStreams(client: ClientId, defs: seq<StreamDef>, sendOk: seq<bool>)
      returns (outcome: Outcome, sent: seq<Delivery>, ghost at: nat)
      requires |sendOk| == |defs|
      modifies this
      ensures outcome == Pass || outcome == Fail(SnapshotFailed)
      ensures outcome.Pass? ==>
        && State() == Registered(old(State()), client, defs)
        && sent == (if client in old(clients) then Snapshots(client, defs) else [])
        && (client in old(clients) ==> |defs| <= FirstRefused(sendOk))
      ensures outcome.Fail? ==>
        && client in old(clients) && at < |defs| && at <= FirstRefused(sendOk) && !sendOk[at]
        && State() == Registered(old(State()), client, defs[..at + 1])
        && sent == Snapshots(client, defs[..at])
    {
      ghost var st0 := State();
      var registered := client in clients;
      sent := [];
      at := 0;
      var i := 0;
      while i < |defs|
        invariant 0 <= i <= |defs|
        invariant State() == Registered(st0, client, defs[..i])
        invariant sent == if registered then Snapshots(client, defs[..i]) else []
        invariant registered ==> i <= FirstRefused(sendOk)
      {
        var d := defs[i];
        RegisteredStep(st0, client, defs, i);
        var streamId := AddStream(client, d);
        if registered {
          if !sendOk[i] {
            return Fail(SnapshotFailed), sent, i;
          }
          SnapshotsStep(client, defs, i);
          sent := sent + [SnapshotOf(client, d)];
        }
        i := i + 1;
      }
      assert defs[..i] == defs;
      outcome := Pass;
    }

    /** `remove_subscription`: filter the first list, in iteration order `order`, that holds a
        match, then drop every empty list. */
    method RemoveSubscription(client: ClientId, streamId: string) returns (ghost order: seq<string>)
      modifies this
      ensures Enumerates(order, old(subscriptions))
      ensures State() == old(State()).(subscriptions := RemoveSubscriptionSpec(old(subscriptions), order, client, streamId))
    {
      var keys := KeyOrder(subscriptions);
      order := keys;
      var i := 0;
      while i < |keys|
        invariant 0 <= i <= |keys|
        invariant subscriptions == old(subscriptions)
        invariant FirstMatch(subscriptions, keys, client, streamId) == FirstMatch(subscriptions, keys[i..], client, streamId)
      {
        var k := keys[i];
        var before := subscriptions[k];
        var after := WithoutStream(before, client, streamId);
        assert keys[i..][1..] == keys[i + 1..];
        if |after| != |before| {
          subscriptions := subscriptions[k := after];
          break;
        }
        i := i + 1;
      }
      assert subscriptions == Unsubscribed(old(subscriptions), keys, client, streamId);
      subscriptions := DropEmptyLists(subscriptions);
    }

    /** `unregister_client`: take the client's stream list out, remove a subscription per
        listed id (removal `j` walking the lists in order `orders[j]`), then drop the sender. */
    method UnregisterClient(client: ClientId) returns (ghost orders: seq<seq<string>>)
      modifies this
      ensures |orders| == |Streams(old(clientStreams), client)|
      ensures OrdersEnumerate(old(subscriptions), client, Streams(old(clientStreams), client), orders)
      ensures State() == UnregisterSpec(old(State()), client, orders)
    {
      var streams := Streams(clientStreams, client);
      clientStreams := clientStreams - {client};
      orders := [];
      var i := 0;
      while i < |streams|
        invariant 0 <= i <= |streams|
        invariant |orders| == i
        invariant OrdersEnumerate(old(subscriptions), client, streams[..i], orders)
        invariant subscriptions == RemoveAll(old(subscriptions), client, streams[..i], orders)
        invariant clients == old(clients) && symbols == old(symbols)
        invariant clientStreams == old(clientStreams) - {client}
      {
        var order := RemoveSubscription(client, streams[i]);
        RemoveAllStep(old(subscriptions), client, streams, orders, i, order);
        OrdersEnumerateStep(old(subscriptions), client, streams, orders, i, order);
        orders := orders + [order];
        i := i + 1;
      }
      assert streams[..i] == streams;
      clients := clients - {client};
    }

    /** The fan-out of one tick for `symbol`, as in the WebSocket manager. */
    method Tick(symbol: string) returns (deliveries: seq<Delivery>)
      ensures deliveries == TickDeliveries(Lookup(subscriptions, symbol), clients, symbol)
    {
      deliveries := FanOut(subscriptions, clients, symbol);
    }

    /** The heartbeat goes to every registered client once. */
    method Heartbeat() returns (recipients: seq<ClientId>)
      ensures |recipients| == |clients|
      ensures forall c :: c in recipients <==> c in clients
    {
      recipients := ClientOrder(clients);
    }
  }
}
