/** The order book object of backend-sse: the state of OrderBookSpec.Book held in fields that
    the mutators update in place. Each method is proved against its specification function
    on `State()`, and the properties of those functions are the lemmas of OrderBookSpec. */
module OrderBook {
  import opened Common
  import opened OrderBookSpec

  class OrderBook {
    const symbol: string
    var orders: map<string, Order>
    var bids: Levels
    var asks: Levels
    var sequence: nat

    /** The book as a value. */
    function State(): Book
      reads this
    {
      Book(orders, bids, asks, sequence)
    }

    ghost predicate Valid()
      reads this
    {
      OrderBookSpec.Valid(State())
    }

    /** `OrderBook::new`: an empty book at sequence 0. */
    constructor (symbol: string)
      ensures this.symbol == symbol
      ensures State() == EmptyBook
      ensures Valid()
    {
      this.symbol := symbol;
      orders := map[];
      bids := map[];
      asks := map[];
      sequence := 0;
    }

    /** `remove_order`: reports whether the id was resident. */
    method RemoveOrder(id: string) returns (removed: bool)
      requires Valid()
      modifies this
      ensures removed == (id in old(orders))
      ensures State() == RemoveSpec(old(State()), id)
      ensures Valid()
    {
      if id !in orders {
        return false;
      }
      ghost var before := State();
      var o := orders[id];
      orders := orders - {id};
      if o.side == Bid {
        bids := DetachId(bids, o.price, id);
      } else {
        asks := DetachId(asks, o.price, id);
      }
      sequence := sequence + 1;
      RemoveKeepsValid(before, id);
      removed := true;
    }

    /** `add_order`: replaces any order with the same id and files the new one last in its
        bucket; always reports success. */
    method AddOrder(order: Order) returns (added: bool)
      requires Valid()
      modifies this
      ensures added
      ensures State() == AddSpec(old(State()), order)
      ensures Valid()
    {
      ghost var before := State();
      if order.id in orders {
        var _ := RemoveOrder(order.id);
      }
      orders := orders[order.id := order];
      if order.side == Bid {
        bids := AttachId(bids, order.price, order.id);
      } else {
        asks := AttachId(asks, order.price, order.id);
      }
      sequence := sequence + 1;
      AddKeepsValid(before, order);
      added := true;
    }

    /** `update_order`: quantity 0 removes; otherwise a resident order takes the new quantity
        in place. Reports whether the id was resident. */
    method UpdateOrder(id: string, quantity: nat, now: int) returns (updated: bool)
      requires Valid()
      modifies this
      ensures updated == (id in old(orders))
      ensures State() == UpdateSpec(old(State()), id, quantity, now)
      ensures Valid()
    {
      UpdateKeepsValid(State(), id, quantity, now);
      if quantity == 0 {
        updated := RemoveOrder(id);
        return;
      }
      if id in orders {
        orders := orders[id := WithQuantity(orders[id], quantity, now)];
        sequence := sequence + 1;
        updated := true;
      } else {
        updated := false;
      }
    }

    /** `get_mbo_side`: walk the buckets in price order, stop after `maxLevels` buckets, emit a
        snapshot per resident id, then cap the list at `maxLevels * 3`. */
    method GetMboSide(side: Side, maxLevels: U32, now: int) returns (result: seq<MBOLevel>)
      ensures result == MboSide(State(), side, maxLevels, now)
    {
      var priceMap := if side == Bid then bids else asks;
      var prices := PriceOrder(priceMap.Keys, side);
      ghost var top := prices[..MinNat(maxLevels, |prices|)];
      assert top == TopPrices(State(), side, maxLevels);
      var rows := CollectBuckets(orders, priceMap, prices, maxLevels, now);
      result := rows[..MinNat(|rows|, maxLevels * 3)];
      MboSideFromRows(State(), side, maxLevels, now, top, rows);
    }

    /** `get_mbp_side`: aggregate the first `maxLevels` buckets in price order, skip buckets
        with no resident order, and carry the cumulative quantity. */
    method GetMbpSide(side: Side, maxLevels: U32, now: int) returns (result: seq<MBPLevel>)
      ensures result == MbpSide(State(), side, maxLevels, now)
    {
      var priceMap := if side == Bid then bids else asks;
      var ordered := PriceOrder(priceMap.Keys, side);
      var prices := ordered[..MinNat(maxLevels, |ordered|)];
      assert prices == TopPrices(State(), side, maxLevels);
      result := AggregateBuckets(orders, priceMap, prices, side, now);
    }

    /** `get_mbo_data`: both sides of the order-level view. */
    method GetMboData(maxLevels: U32, now: int) returns (bidLevels: seq<MBOLevel>, askLevels: seq<MBOLevel>)
      ensures bidLevels == MboSide(State(), Bid, maxLevels, now)
      ensures askLevels == MboSide(State(), Ask, maxLevels, now)
    {
      bidLevels := GetMboSide(Bid, maxLevels, now);
      askLevels := GetMboSide(Ask, maxLevels, now);
    }

    /** `get_mbp_data`: both sides of the price-level view. */
    method GetMbpData(maxLevels: U32, now: int) returns (bidLevels: seq<MBPLevel>, askLevels: seq<MBPLevel>)
      ensures bidLevels == MbpSide(State(), Bid, maxLevels, now)
      ensures askLevels == MbpSide(State(), Ask, maxLevels, now)
    {
      bidLevels := GetMbpSide(Bid, maxLevels, now);
      askLevels := GetMbpSide(Ask, maxLevels, now);
    }

    /** `get_sequence`: the counter of the book's value, which every mutation that changes
        the book advances by one. */
    function GetSequence(): (n: nat)
      reads this
      ensures n == State().sequence
    {
      sequence
    }

    /** `orders.keys().cloned().collect()`: every resident id once, in hash-map order. */
    method OrderIds() returns (ids: seq<string>)
      ensures IsEnumeration(ids, orders)
    {
      var rest := orders.Keys;
      ids := [];
      while rest != {}
        invariant NoDup(ids)
        invariant forall id :: id in orders <==> id in ids || id in rest
        invariant forall id :: id in ids ==> id !in rest
        decreases |rest|
      {
        var id :| id in rest;
        ids := ids + [id];
        rest := rest - {id};
      }
    }

    /** `generate_random_activity` with its random draws in `d`. */
    method GenerateRandomActivity(d: Draw, now: int) returns (activity: OrderActivity, ghost ids: seq<string>)
      ensures IsEnumeration(ids, orders)
      ensures activity == GenerateActivity(State(), ids, d, symbol, now)
    {
      var keys := OrderIds();
      ids := keys;
      activity := GenerateActivity(State(), keys, d, symbol, now);
    }

    /** `execute_activity`. */
    method ExecuteActivity(activity: OrderActivity, now: int)
      requires Valid()
      modifies this
      ensures State() == ExecuteSpec(old(State()), activity, now)
      ensures Valid()
    {
      match activity.activityType
      case Add =>
        if activity.price.Some? && activity.quantity.Some? && activity.side.Some? {
          var order := NewOrder(activity.orderId, activity.price.value, activity.quantity.value,
                                activity.side.value, now);
          var _ := AddOrder(order);
        }
      case Update =>
        if activity.quantity.Some? {
          var _ := UpdateOrder(activity.orderId, activity.quantity.value, now);
        }
      case Cancel =>
        var _ := RemoveOrder(activity.orderId);
    }

    /** `simulate_activity`: one generated activity per draw, each applied before the next is
        drawn. `books` are the states between the steps: every activity was generated from the
        book as it stood, every step moves the sequence on, and the book stays well formed. */
    method SimulateActivity(draws: seq<Draw>, now: int) returns (activities: seq<OrderActivity>, ghost books: seq<Book>)
      requires Valid()
      modifies this
      ensures Valid()
      ensures |activities| == |draws| && |books| == |draws| + 1
      ensures books[0] == old(State()) && books[|draws|] == State()
      ensures forall i :: 0 <= i < |draws| ==>
        SimulationStep(books[i], activities[i], books[i + 1], draws[i], symbol, now)
      ensures sequence >= old(sequence) + |draws|
    {
      activities := [];
      books := [State()];
      var i := 0;
      while i < |draws|
        invariant 0 <= i <= |draws|
        invariant Valid()
        invariant |activities| == i && |books| == i + 1
        invariant books[0] == old(State()) && books[i] == State()
        invariant forall k :: 0 <= k < i ==>
          SimulationStep(books[k], activities[k], books[k + 1], draws[k], symbol, now)
        invariant sequence >= old(sequence) + i
      {
        ghost var before := State();
        var activity, ids := GenerateRandomActivity(draws[i], now);
        GeneratedActivityAdvances(before, ids, draws[i], symbol, now);
        ExecuteActivity(activity, now);
        assert SimulationStep(before, activity, State(), draws[i], symbol, now);
        activities := activities + [activity];
        books := books + [State()];
        i := i + 1;
      }
    }
  }

  /** The price-map step of `add_order`: `entry(p).or_insert_with(Vec::new).push(id)`. */
  method AttachId(lv: Levels, p: Price, id: string) returns (r: Levels)
    ensures r == Attach(lv, p, id)
  {
    var bucket := if p in lv then lv[p] else [];
    r := lv[p := bucket + [id]];
  }

  /** The price-map step of `remove_order`: retain the other ids of the bucket at `p`, and
      delete the bucket once it is empty. */
  method DetachId(lv: Levels, p: Price, id: string) returns (r: Levels)
    ensures r == Detach(lv, p, id)
  {
    r := lv;
    if p in r {
      var rest := Without(r[p], id);
      r := r[p := rest];
      if |rest| == 0 {
        r := r - {p};
      }
    }
  }

  /** The outer loop of `get_mbo_side`: walk the buckets at `prices` in turn, and stop once
      `maxLevels` buckets were taken. */
  method CollectBuckets(resident: map<string, Order>, priceMap: Levels, prices: seq<Price>,
                        maxLevels: U32, now: int) returns (result: seq<MBOLevel>)
    requires forall k :: 0 <= k < |prices| ==> prices[k] in priceMap
    ensures result == LevelRows(resident, priceMap, prices[..MinNat(maxLevels, |prices|)], now)
  {
    result := [];
    var levelsCount: nat := 0;
    var i := 0;
    while i < |prices|
      invariant 0 <= i <= |prices|
      invariant levelsCount == i <= maxLevels
      invariant result == LevelRows(resident, priceMap, prices[..i], now)
    {
      if levelsCount >= maxLevels {
        break;
      }
      var bucket := BucketSnapshots(resident, priceMap[prices[i]], now);
      result := result + bucket;
      LevelRowsStep(resident, priceMap, prices, i, now);
      levelsCount := levelsCount + 1;
      i := i + 1;
    }
  }

  /** The inner loop of `get_mbo_side`: a snapshot per id of the bucket still resident. */
  method BucketSnapshots(resident: map<string, Order>, ids: seq<string>, now: int)
    returns (bucket: seq<MBOLevel>)
    ensures bucket == BucketRows(resident, ids, now)
  {
    bucket := [];
    var j := 0;
    while j < |ids|
      invariant 0 <= j <= |ids|
      invariant bucket == BucketRows(resident, ids[..j], now)
    {
      BucketRowsStep(resident, ids, j, now);
      if ids[j] in resident {
        bucket := bucket + [Snapshot(resident[ids[j]], now)];
      }
      j := j + 1;
    }
    assert ids[..j] == ids;
  }

  /** The loop of `get_mbp_side` over the chosen prices: one aggregated level per bucket that
      still has a resident order, with the running cumulative quantity. */
  method AggregateBuckets(resident: map<string, Order>, priceMap: Levels, prices: seq<Price>,
                          side: Side, now: int) returns (result: seq<MBPLevel>)
    requires forall k :: 0 <= k < |prices| ==> prices[k] in priceMap
    ensures result == MbpRows(resident, priceMap, prices, side, now)
  {
    result := [];
    var cumulative: nat := 0;
    var i := 0;
    while i < |prices|
      invariant 0 <= i <= |prices|
      invariant result == MbpRows(resident, priceMap, prices[..i], side, now)
      invariant cumulative == Cumulative(result)
    {
      var price := prices[i];
      var resting := Resident(resident, priceMap[price]);
      MbpRowsStep(resident, priceMap, prices, i, side, now);
      if |resting| > 0 {
        var quantity := TotalQuantity(resting);
        var avgAgeMs := MeanAge(resting, now);
        cumulative := cumulative + quantity;
        var level := MBPLevel(price, quantity, |resting|, side, cumulative, avgAgeMs);
        assert level == Aggregate(price, resting, side, Cumulative(result), now);
        result := result + [level];
      }
      i := i + 1;
    }
    assert prices[..i] == prices;
  }
}
