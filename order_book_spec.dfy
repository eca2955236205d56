/** The order book of one instrument as a value: the id → order map, the two price indexes
    (price → ids resident at that price, oldest first) and the sequence counter; the mutations
    `add_order`, `remove_order` and `update_order` as functions on that value; the order-level
    and price-level views; the best bid and ask; and the synthetic activity generator with its
    random draws passed in. The class in module OrderBook runs the same operations in place and
    is specified by these functions. */
module OrderBookSpec {
  import opened Common

  /** Prices in integer ticks of one cent. */
  type Price = int

  /** One side's price index: price → ids of the orders resident at that price, in the order
      they were added. */
  type Levels = map<Price, seq<string>>

  datatype Order = Order(
    id: string,
    price: Price,
    quantity: nat,
    side: Side,
    timestamp: int,
    originalQuantity: nat)

  /** `Order::new`, with the clock reading passed in as `now`: nothing of the order is filled
      yet, and it is touched now. */
  function NewOrder(id: string, price: Price, quantity: nat, side: Side, now: int): (o: Order)
    ensures o.id == id && o.price == price && o.side == side
    ensures o.quantity == quantity && o.originalQuantity == quantity
    ensures AgeMs(o, now) == 0
  {
    Order(id, price, quantity, side, now, quantity)
  }

  /** `Order::update_quantity`: new quantity, touched now; identity, price, side and the
      quantity it was placed with stay as they were. */
  function WithQuantity(o: Order, quantity: nat, now: int): (r: Order)
    ensures r.quantity == quantity && AgeMs(r, now) == 0
    ensures r.id == o.id && r.price == o.price && r.side == o.side
    ensures r.originalQuantity == o.originalQuantity
    ensures forall later :: later >= now ==> AgeMs(r, later) == later - now
  {
    o.(quantity := quantity, timestamp := now)
  }

  /** `Order::age_ms`: milliseconds since last touched, never negative. */
  function AgeMs(o: Order, now: int): (a: nat)
    ensures now >= o.timestamp ==> a == now - o.timestamp
    ensures now <= o.timestamp ==> a == 0
  {
    if now - o.timestamp > 0 then now - o.timestamp else 0
  }

  datatype Book = Book(orders: map<string, Order>, bids: Levels, asks: Levels, sequence: nat)

  const EmptyBook: Book := Book(map[], map[], map[], 0)

  function LevelsOf(b: Book, side: Side): Levels {
    if side == Bid then b.bids else b.asks
  }

  function WithLevels(b: Book, side: Side, lv: Levels): Book {
    if side == Bid then b.(bids := lv) else b.(asks := lv)
  }

  predicate NoDup(s: seq<string>) {
    forall i, j :: 0 <= i < j < |s| ==> s[i] != s[j]
  }

  // ---------------------------------------------------------------------------------------
  // The structural invariant

  /** Every bucket of one side is non-empty, lists each id once, and lists only resident
      orders of that side at that price. */
  predicate LevelsFiled(orders: map<string, Order>, lv: Levels, side: Side) {
    forall p :: p in lv ==>
      |lv[p]| > 0 && NoDup(lv[p]) &&
      forall id :: id in lv[p] ==> id in orders && orders[id].side == side && orders[id].price == p
  }

  /** Every resident order is keyed by its own id and is listed in the bucket of its side and
      price; together with LevelsFiled this puts it in exactly one bucket (see InOneBucket). */
  predicate OrdersFiled(b: Book) {
    forall id :: id in b.orders ==>
      b.orders[id].id == id
      && b.orders[id].price in LevelsOf(b, b.orders[id].side)
      && id in LevelsOf(b, b.orders[id].side)[b.orders[id].price]
  }

  predicate Valid(b: Book) {
    OrdersFiled(b) && LevelsFiled(b.orders, b.bids, Bid) && LevelsFiled(b.orders, b.asks, Ask)
  }

  lemma EmptyBookValid()
    ensures Valid(EmptyBook)
  {
  }

  /** A resident id sits in one bucket only: the one of its own side and price. */
  lemma InOneBucket(b: Book, id: string, side: Side, p: Price)
    requires Valid(b) && id in b.orders
    ensures (p in LevelsOf(b, side) && id in LevelsOf(b, side)[p])
            <==> (side == b.orders[id].side && p == b.orders[id].price)
  {
  }

  // ---------------------------------------------------------------------------------------
  // Bucket edits

  /** `Vec::retain(|x| x != id)`. */
  function Without(s: seq<string>, x: string): (r: seq<string>)
    ensures forall y :: y in r <==> y in s && y != x
    ensures |r| <= |s|
    ensures x !in s ==> r == s
    ensures NoDup(s) ==> NoDup(r)
    ensures NoDup(s) && x in s ==> |r| == |s| - 1
    decreases |s|
  {
    if |s| == 0 then []
    else
      var tail := Without(s[1..], x);
      assert NoDup(s) ==> NoDup(s[1..]) && s[0] !in s[1..];
      assert x in s && x != s[0] ==> x in s[1..];
      if s[0] == x then tail
      else
        var r := [s[0]] + tail;
        assert x !in s ==> s == [s[0]] + s[1..];
        r
  }

  /** `retain` keeps order: filtering a concatenation filters each part, and a one-element
      list loses its element exactly when it is the id removed. Together these fix `Without`
      completely: the survivors in their original order. */
  lemma {:induction false} WithoutAppend(a: seq<string>, b: seq<string>, x: string)
    ensures Without(a + b, x) == Without(a, x) + Without(b, x)
    ensures forall y :: Without([y], x) == (if y == x then [] else [y])
    decreases |a|
  {
    if |a| > 0 {
      assert (a + b)[1..] == a[1..] + b;
      WithoutAppend(a[1..], b, x);
    } else {
      assert a + b == b;
    }
  }

  /** Take `id` out of the bucket at `p`, and drop the bucket if that emptied it. */
  function Detach(lv: Levels, p: Price, id: string): Levels {
    if p in lv then
      var rest := Without(lv[p], id);
      if |rest| == 0 then lv - {p} else lv[p := rest]
    else lv
  }

  /** `entry(p).or_insert_with(Vec::new).push(id)`. */
  function Attach(lv: Levels, p: Price, id: string): Levels {
    lv[p := (if p in lv then lv[p] else []) + [id]]
  }

  // ---------------------------------------------------------------------------------------
  // Mutations

  /** `remove_order`: an absent id changes nothing; a resident one leaves the map and its
      bucket, and the sequence moves on by one. */
  function RemoveSpec(b: Book, id: string): Book {
    if id !in b.orders then b
    else
      var o := b.orders[id];
      var b1 := WithLevels(b, o.side, Detach(LevelsOf(b, o.side), o.price, id));
      b1.(orders := b.orders - {id}, sequence := b.sequence + 1)
  }

  /** `add_order`: remove any order with the same id first (which itself bumps the sequence),
      then file the new order at the end of its bucket and bump the sequence. */
  function AddSpec(b: Book, o: Order): Book {
    FileOrder(if o.id in b.orders then RemoveSpec(b, o.id) else b, o)
  }

  /** The second half of `add_order`: map the id to the order, append it to its bucket and
      bump the sequence. */
  function FileOrder(b: Book, o: Order): Book {
    var b1 := WithLevels(b, o.side, Attach(LevelsOf(b, o.side), o.price, o.id));
    b1.(orders := b.orders[o.id := o], sequence := b.sequence + 1)
  }

  /** `update_order`: quantity 0 is a removal; otherwise a resident order gets the new
      quantity and timestamp and the sequence is bumped; an absent id changes nothing. */
  function UpdateSpec(b: Book, id: string, quantity: nat, now: int): Book {
    if quantity == 0 then RemoveSpec(b, id)
    else if id in b.orders then
      b.(orders := b.orders[id := WithQuantity(b.orders[id], quantity, now)],
         sequence := b.sequence + 1)
    else b
  }

  lemma {:induction false} RemoveKeepsValid(b: Book, id: string)
    requires Valid(b)
    ensures Valid(RemoveSpec(b, id))
  {
    if id in b.orders {
      var o := b.orders[id];
      var b' := RemoveSpec(b, id);
      var lv := LevelsOf(b, o.side);
      var lv' := LevelsOf(b', o.side);
      assert lv' == Detach(lv, o.price, id);
      assert LevelsOf(b', if o.side == Bid then Ask else Bid) == LevelsOf(b, if o.side == Bid then Ask else Bid);
      forall k | k in b'.orders
        ensures b'.orders[k].id == k
        ensures b'.orders[k].price in LevelsOf(b', b'.orders[k].side)
        ensures k in LevelsOf(b', b'.orders[k].side)[b'.orders[k].price]
      {
        var ok := b.orders[k];
        assert k != id && ok == b'.orders[k];
        if ok.side == o.side && ok.price == o.price {
          assert k in Without(lv[o.price], id);
        }
      }
      var other := if o.side == Bid then Ask else Bid;
      forall q | q in lv && q != o.price ensures id !in lv[q] {
        InOneBucket(b, id, o.side, q);
      }
      forall q | q in LevelsOf(b, other) ensures id !in LevelsOf(b, other)[q] {
        InOneBucket(b, id, other, q);
      }
      DetachKeepsFiled(b.orders, lv, o.side, o.price, id);
      UntouchedKeepsFiled(b.orders, LevelsOf(b, other), other, id);
      assert LevelsOf(b', Bid) == b'.bids && LevelsOf(b', Ask) == b'.asks;
    }
  }

  /** Dropping an id from the one bucket that lists it keeps the buckets filed against the
      orders without it. */
  lemma DetachKeepsFiled(orders: map<string, Order>, lv: Levels, side: Side, p: Price, id: string)
    requires LevelsFiled(orders, lv, side)
    requires forall q :: q in lv && q != p ==> id !in lv[q]
    ensures LevelsFiled(orders - {id}, Detach(lv, p, id), side)
  {
    var m' := Detach(lv, p, id);
    forall q | q in m'
      ensures |m'[q]| > 0 && NoDup(m'[q])
      ensures forall k :: k in m'[q] ==> k in orders - {id} && orders[k].side == side && orders[k].price == q
    {
      assert q in lv;
      forall k | k in m'[q] ensures k in lv[q] && k != id {
      }
    }
  }

  /** Buckets that never list an id stay filed against the orders without it. */
  lemma UntouchedKeepsFiled(orders: map<string, Order>, lv: Levels, side: Side, id: string)
    requires LevelsFiled(orders, lv, side)
    requires forall q :: q in lv ==> id !in lv[q]
    ensures LevelsFiled(orders - {id}, lv, side)
  {
  }

  /** What `remove_order` of a resident id achieves: the id is gone from the map and from
      every bucket, its bucket is deleted exactly when it was the last order there, every other
      bucket is untouched, and the sequence rises by one. */
  lemma RemoveResident(b: Book, id: string)
    requires Valid(b) && id in b.orders
    ensures var o := b.orders[id]; var b' := RemoveSpec(b, id);
      && b'.orders == b.orders - {id}
      && b'.sequence == b.sequence + 1
      && (forall side, p :: p in LevelsOf(b', side) ==> id !in LevelsOf(b', side)[p])
      && (o.price in LevelsOf(b', o.side) <==> |LevelsOf(b, o.side)[o.price]| > 1)
      && (forall p :: p in LevelsOf(b, o.side) && p != o.price ==>
            p in LevelsOf(b', o.side) && LevelsOf(b', o.side)[p] == LevelsOf(b, o.side)[p])
      && (forall p :: p in LevelsOf(b', o.side) ==> p in LevelsOf(b, o.side))
      && (o.price in LevelsOf(b', o.side) ==>
            LevelsOf(b', o.side)[o.price] == Without(LevelsOf(b, o.side)[o.price], id))
      && LevelsOf(b', if o.side == Bid then Ask else Bid) == LevelsOf(b, if o.side == Bid then Ask else Bid)
  {
    var o := b.orders[id];
    var b' := RemoveSpec(b, id);
    RemoveKeepsValid(b, id);
  }

  /** `remove_order` of an absent id leaves everything as it was, the sequence included. */
  lemma RemoveAbsent(b: Book, id: string)
    requires id !in b.orders
    ensures RemoveSpec(b, id) == b
  {
  }

  /** Filing a new order (whose id is not resident) at the end of its bucket keeps the
      buckets of its own side well formed. */
  lemma {:induction false} AttachFiled(orders: map<string, Order>, lv: Levels, o: Order)
    requires LevelsFiled(orders, lv, o.side) && o.id !in orders
    ensures LevelsFiled(orders[o.id := o], Attach(lv, o.price, o.id), o.side)
  {
    var orders' := orders[o.id := o];
    var lv' := Attach(lv, o.price, o.id);
    forall p | p in lv'
      ensures |lv'[p]| > 0 && NoDup(lv'[p])
      ensures forall k :: k in lv'[p] ==> k in orders' && orders'[k].side == o.side && orders'[k].price == p
    {
      if p == o.price {
        var old_ := if p in lv then lv[p] else [];
        assert lv'[p] == old_ + [o.id];
        assert o.id !in old_;
        forall i, j | 0 <= i < j < |lv'[p]| ensures lv'[p][i] != lv'[p][j] {
          if j == |old_| { assert lv'[p][i] in old_; }
        }
        forall k | k in lv'[p]
          ensures k in orders' && orders'[k].side == o.side && orders'[k].price == p
        {
          if k != o.id { assert k in old_; }
        }
      } else {
        assert lv'[p] == lv[p];
        forall k | k in lv'[p]
          ensures k in orders' && orders'[k].side == o.side && orders'[k].price == p
        {
          assert k in orders && k != o.id;
        }
      }
    }
  }

  /** Inserting an order whose id is not resident leaves the buckets of the other side as
      they were and still well formed. */
  lemma {:induction false} InsertKeepsFiled(orders: map<string, Order>, lv: Levels, side: Side, o: Order)
    requires LevelsFiled(orders, lv, side) && o.id !in orders
    ensures LevelsFiled(orders[o.id := o], lv, side)
  {
    forall p, k | p in lv && k in lv[p] ensures k != o.id {
      assert k in orders;
    }
  }

  /** Filing an order with a fresh id into a well-formed book. */
  lemma {:induction false} AddFreshKeepsValid(b: Book, o: Order)
    requires Valid(b) && o.id !in b.orders
    ensures Valid(FileOrder(b, o))
  {
    var b' := FileOrder(b, o);
    var other := if o.side == Bid then Ask else Bid;
    AttachFiled(b.orders, LevelsOf(b, o.side), o);
    InsertKeepsFiled(b.orders, LevelsOf(b, other), other, o);
    assert LevelsOf(b', o.side) == Attach(LevelsOf(b, o.side), o.price, o.id);
    assert LevelsOf(b', other) == LevelsOf(b, other);
    forall k | k in b'.orders
      ensures b'.orders[k].id == k
      ensures b'.orders[k].price in LevelsOf(b', b'.orders[k].side)
      ensures k in LevelsOf(b', b'.orders[k].side)[b'.orders[k].price]
    {
      if k != o.id {
        var ok := b.orders[k];
        assert ok.price in LevelsOf(b, ok.side) && k in LevelsOf(b, ok.side)[ok.price];
        if ok.side == o.side && ok.price == o.price {
          assert LevelsOf(b', ok.side)[ok.price] == LevelsOf(b, ok.side)[ok.price] + [o.id];
        }
      }
    }
    assert LevelsOf(b', Bid) == b'.bids && LevelsOf(b', Ask) == b'.asks;
  }

  lemma {:induction false} AddKeepsValid(b: Book, o: Order)
    requires Valid(b)
    ensures Valid(AddSpec(b, o))
  {
    var b0 := if o.id in b.orders then RemoveSpec(b, o.id) else b;
    RemoveKeepsValid(b, o.id);
    assert Valid(b0) && o.id !in b0.orders;
    AddFreshKeepsValid(b0, o);
  }

  /** What `add_order` achieves (it always reports success): the id now maps to the new order,
      it is the LAST id of the bucket of the new side and price and is in no other bucket, and
      the sequence rises by one for a new id and by two for a replacement. */
  lemma AddEffect(b: Book, o: Order)
    requires Valid(b)
    ensures var b' := AddSpec(b, o);
      && b'.orders == b.orders[o.id := o]
      && b'.sequence == b.sequence + (if o.id in b.orders then 2 else 1)
      && o.price in LevelsOf(b', o.side)
      && |LevelsOf(b', o.side)[o.price]| > 0
      && LevelsOf(b', o.side)[o.price][|LevelsOf(b', o.side)[o.price]| - 1] == o.id
      && (forall side, p :: p in LevelsOf(b', side) && o.id in LevelsOf(b', side)[p]
            ==> side == o.side && p == o.price)
  {
    var b' := AddSpec(b, o);
    AddKeepsValid(b, o);
    if o.id in b.orders {
      RemoveResident(b, o.id);
      assert (b.orders - {o.id})[o.id := o] == b.orders[o.id := o];
    }
    assert b'.orders[o.id] == o;
    forall side, p | p in LevelsOf(b', side) && o.id in LevelsOf(b', side)[p]
      ensures side == o.side && p == o.price
    {
      InOneBucket(b', o.id, side, p);
    }
  }

  lemma {:induction false} UpdateKeepsValid(b: Book, id: string, quantity: nat, now: int)
    requires Valid(b)
    ensures Valid(UpdateSpec(b, id, quantity, now))
  {
    if quantity == 0 {
      RemoveKeepsValid(b, id);
    } else if id in b.orders {
      ReplaceKeepsValid(b, id, WithQuantity(b.orders[id], quantity, now));
    }
  }

  /** Replacing a resident order by one with the same id, side and price keeps the book well
      formed, since both price indexes stay as they are. */
  lemma ReplaceKeepsValid(b: Book, id: string, o: Order)
    requires Valid(b) && id in b.orders
    requires o.id == id && o.side == b.orders[id].side && o.price == b.orders[id].price
    ensures Valid(b.(orders := b.orders[id := o]))
  {
    var b' := b.(orders := b.orders[id := o]);
    assert LevelsOf(b', Bid) == LevelsOf(b, Bid) && LevelsOf(b', Ask) == LevelsOf(b, Ask);
    forall k | k in b'.orders
      ensures b'.orders[k].id == k
      ensures b'.orders[k].price in LevelsOf(b', b'.orders[k].side)
      ensures k in LevelsOf(b', b'.orders[k].side)[b'.orders[k].price]
    {
      assert b'.orders[k].side == b.orders[k].side && b'.orders[k].price == b.orders[k].price;
    }
    ReplaceKeepsFiled(b.orders, b.bids, Bid, id, o);
    ReplaceKeepsFiled(b.orders, b.asks, Ask, id, o);
  }

  lemma ReplaceKeepsFiled(orders: map<string, Order>, lv: Levels, side: Side, id: string, o: Order)
    requires LevelsFiled(orders, lv, side) && id in orders
    requires o.side == orders[id].side && o.price == orders[id].price
    ensures LevelsFiled(orders[id := o], lv, side)
  {
    forall p, k | p in lv && k in lv[p]
      ensures k in orders[id := o] && orders[id := o][k].side == side && orders[id := o][k].price == p
    {
    }
  }

  /** `update_order` with a positive quantity on a resident order changes that order's
      quantity and timestamp only; its original quantity, its side, its price and its place in
      its bucket (both price indexes are untouched) stay, and the sequence rises by one. */
  lemma UpdateResident(b: Book, id: string, quantity: nat, now: int)
    requires Valid(b) && id in b.orders && quantity > 0
    ensures var b' := UpdateSpec(b, id, quantity, now); var o := b.orders[id];
      && Valid(b')
      && b'.bids == b.bids && b'.asks == b.asks
      && b'.orders.Keys == b.orders.Keys
      && b'.orders[id].quantity == quantity && b'.orders[id].timestamp == now
      && b'.orders[id].originalQuantity == o.originalQuantity
      && b'.orders[id].price == o.price && b'.orders[id].side == o.side
      && (forall k :: k in b.orders && k != id ==> b'.orders[k] == b.orders[k])
      && b'.sequence == b.sequence + 1
  {
    UpdateKeepsValid(b, id, quantity, now);
  }

  /** `update_order` to quantity 0 is `remove_order`, and on an absent id it is a no-op. */
  lemma UpdateToZeroIsRemove(b: Book, id: string, now: int)
    ensures UpdateSpec(b, id, 0, now) == RemoveSpec(b, id)
    ensures id !in b.orders ==> UpdateSpec(b, id, 0, now) == b
  {
  }

  lemma UpdateAbsent(b: Book, id: string, quantity: nat, now: int)
    requires id !in b.orders
    ensures UpdateSpec(b, id, quantity, now) == b
  {
  }

  // ---------------------------------------------------------------------------------------
  // Price order of a side

  /** Sort key of a price on a side: bids are served highest first, asks lowest first. */
  function Rank(side: Side, p: Price): int {
    if side == Bid then -p else p
  }

  lemma {:induction false} MaxExists(s: set<int>)
    requires s != {}
    ensures exists p :: p in s && forall q :: q in s ==> q <= p
    decreases |s|
  {
    var x := Pick(s);
    if s != {x} {
      var rest := s - {x};
      MaxExists(rest);
      var p :| p in rest && forall q :: q in rest ==> q <= p;
      var m := if p < x then x else p;
      forall q | q in s ensures q <= m {
        if q != x { assert q in rest; }
      }
    } else {
      assert forall q :: q in s ==> q <= x;
    }
  }

  lemma {:induction false} MinExists(s: set<int>)
    requires s != {}
    ensures exists p :: p in s && forall q :: q in s ==> p <= q
    decreases |s|
  {
    var x := Pick(s);
    if s != {x} {
      var rest := s - {x};
      MinExists(rest);
      var p :| p in rest && forall q :: q in rest ==> p <= q;
      var m := if x < p then x else p;
      forall q | q in s ensures m <= q {
        if q != x { assert q in rest; }
      }
    } else {
      assert forall q :: q in s ==> x <= q;
    }
  }

  function Max(s: set<int>): (p: Price)
    requires s != {}
    ensures p in s && forall q :: q in s ==> q <= p
  {
    MaxExists(s);
    var p :| p in s && forall q :: q in s ==> q <= p; p
  }

  function Min(s: set<int>): (p: Price)
    requires s != {}
    ensures p in s && forall q :: q in s ==> p <= q
  {
    MinExists(s);
    var p :| p in s && forall q :: q in s ==> p <= q; p
  }

  function Descending(s: set<int>): (ps: seq<Price>)
    ensures |ps| == |s|
    ensures forall i :: 0 <= i < |ps| ==> ps[i] in s
    ensures forall p :: p in s ==> p in ps
    ensures forall i, j :: 0 <= i < j < |ps| ==> ps[i] > ps[j]
    decreases |s|
  {
    if s == {} then []
    else
      var m := Max(s);
      var rest := Descending(s - {m});
      ConsDescending(s, m, rest);
      [m] + rest
  }

  /** Putting the maximum in front of the rest, in descending order, keeps the order. */
  lemma ConsDescending(s: set<int>, m: int, rest: seq<Price>)
    requires m in s && forall q :: q in s ==> q <= m
    requires |rest| == |s - {m}|
    requires forall i :: 0 <= i < |rest| ==> rest[i] in s - {m}
    requires forall p :: p in s - {m} ==> p in rest
    requires forall i, j :: 0 <= i < j < |rest| ==> rest[i] > rest[j]
    ensures |[m] + rest| == |s|
    ensures forall i :: 0 <= i < |[m] + rest| ==> ([m] + rest)[i] in s
    ensures forall p :: p in s ==> p in [m] + rest
    ensures forall i, j :: 0 <= i < j < |[m] + rest| ==> ([m] + rest)[i] > ([m] + rest)[j]
  {
    var ps := [m] + rest;
    assert forall p :: p in s && p != m ==> p in s - {m};
    forall i, j | 0 <= i < j < |ps| ensures ps[i] > ps[j] {
      assert ps[j] == rest[j - 1];
      if i > 0 { assert ps[i] == rest[i - 1]; }
    }
  }

  function Ascending(s: set<int>): (ps: seq<Price>)
    ensures |ps| == |s|
    ensures forall i :: 0 <= i < |ps| ==> ps[i] in s
    ensures forall p :: p in s ==> p in ps
    ensures forall i, j :: 0 <= i < j < |ps| ==> ps[i] < ps[j]
    decreases |s|
  {
    if s == {} then []
    else
      var m := Min(s);
      var rest := Ascending(s - {m});
      ConsAscending(s, m, rest);
      [m] + rest
  }

  /** Putting the minimum in front of the rest, in ascending order, keeps the order. */
  lemma ConsAscending(s: set<int>, m: int, rest: seq<Price>)
    requires m in s && forall q :: q in s ==> m <= q
    requires |rest| == |s - {m}|
    requires forall i :: 0 <= i < |rest| ==> rest[i] in s - {m}
    requires forall p :: p in s - {m} ==> p in rest
    requires forall i, j :: 0 <= i < j < |rest| ==> rest[i] < rest[j]
    ensures |[m] + rest| == |s|
    ensures forall i :: 0 <= i < |[m] + rest| ==> ([m] + rest)[i] in s
    ensures forall p :: p in s ==> p in [m] + rest
    ensures forall i, j :: 0 <= i < j < |[m] + rest| ==> ([m] + rest)[i] < ([m] + rest)[j]
  {
    var ps := [m] + rest;
    assert forall p :: p in s && p != m ==> p in s - {m};
    forall i, j | 0 <= i < j < |ps| ensures ps[i] < ps[j] {
      assert ps[j] == rest[j - 1];
      if i > 0 { assert ps[i] == rest[i - 1]; }
    }
  }

  /** The first key of the side's ordered iteration: the maximum for bids, the minimum for asks. */
  function Best(s: set<int>, side: Side): (p: Price)
    requires s != {}
    ensures p in s
    ensures forall q :: q in s ==> Rank(side, p) <= Rank(side, q)
  {
    if side == Bid then Max(s) else Min(s)
  }

  /** The keys in the order of `iter()` for asks and `iter().rev()` for bids. */
  function PriceOrder(s: set<int>, side: Side): (ps: seq<Price>)
    ensures |ps| == |s|
    ensures forall i :: 0 <= i < |ps| ==> ps[i] in s
    ensures forall p :: p in s ==> p in ps
    ensures forall i, j :: 0 <= i < j < |ps| ==> Rank(side, ps[i]) < Rank(side, ps[j])
  {
    if side == Bid then Descending(s) else Ascending(s)
  }

  /** The best `maxLevels` prices of a side, best first (`.take(max_levels)` of the ordered
      iteration). */
  function TopPrices(b: Book, side: Side, maxLevels: U32): (top: seq<Price>)
    ensures |top| == MinNat(maxLevels, |LevelsOf(b, side)|)
    ensures forall i :: 0 <= i < |top| ==> top[i] in LevelsOf(b, side)
    ensures forall i, j :: 0 <= i < j < |top| ==> Rank(side, top[i]) < Rank(side, top[j])
    ensures forall i :: 0 <= i < |top| ==> top[i] == PriceOrder(LevelsOf(b, side).Keys, side)[i]
  {
    var ps := PriceOrder(LevelsOf(b, side).Keys, side);
    assert |LevelsOf(b, side).Keys| == |LevelsOf(b, side)|;
    ps[..MinNat(maxLevels, |ps|)]
  }

  // ---------------------------------------------------------------------------------------
  // Order-level view (MBO)

  datatype MBOLevel = MBOLevel(
    orderId: string,
    price: Price,
    quantity: nat,
    side: Side,
    timestamp: int,
    ageMs: nat)

  function Snapshot(o: Order, now: int): MBOLevel {
    MBOLevel(o.id, o.price, o.quantity, o.side, o.timestamp, AgeMs(o, now))
  }

  /** Snapshots of the resident orders among `ids`, in the order of `ids`. */
  function BucketRows(orders: map<string, Order>, ids: seq<string>, now: int): seq<MBOLevel>
    decreases |ids|
  {
    if |ids| == 0 then []
    else
      var last := ids[|ids| - 1];
      BucketRows(orders, ids[..|ids| - 1], now)
        + (if last in orders then [Snapshot(orders[last], now)] else [])
  }

  /** The buckets at prices `ps`, one after the other. */
  function LevelRows(orders: map<string, Order>, lv: Levels, ps: seq<Price>, now: int): seq<MBOLevel>
    requires forall i :: 0 <= i < |ps| ==> ps[i] in lv
    decreases |ps|
  {
    if |ps| == 0 then []
    else LevelRows(orders, lv, ps[..|ps| - 1], now) + BucketRows(orders, lv[ps[|ps| - 1]], now)
  }

  /** The cap on the number of orders in one side of the order-level view. */
  function MboCap(maxLevels: U32): nat {
    maxLevels * 3
  }

  /** `get_mbo_side`: the first `maxLevels` buckets in price order, each in insertion order,
      truncated to `maxLevels * 3` orders. */
  function MboSide(b: Book, side: Side, maxLevels: U32, now: int): seq<MBOLevel> {
    var rows := LevelRows(b.orders, LevelsOf(b, side), TopPrices(b, side, maxLevels), now);
    rows[..MinNat(|rows|, MboCap(maxLevels))]
  }

  /** The order-level view is the capped concatenation of the buckets at the first
      `maxLevels` prices of the side's ordered iteration. */
  lemma MboSideFromRows(b: Book, side: Side, maxLevels: U32, now: int, top: seq<Price>, rows: seq<MBOLevel>)
    requires top == TopPrices(b, side, maxLevels)
    requires rows == LevelRows(b.orders, LevelsOf(b, side), top, now)
    ensures rows[..MinNat(|rows|, maxLevels * 3)] == MboSide(b, side, maxLevels, now)
  {
  }

  /** With every id resident, a bucket yields one snapshot per id, in bucket order. */
  lemma {:induction false} BucketRowsExact(orders: map<string, Order>, ids: seq<string>, now: int)
    requires forall id :: id in ids ==> id in orders && orders[id].id == id
    ensures |BucketRows(orders, ids, now)| == |ids|
    ensures forall k :: 0 <= k < |ids| ==>
      BucketRows(orders, ids, now)[k] == Snapshot(orders[ids[k]], now)
      && BucketRows(orders, ids, now)[k].orderId == ids[k]
    decreases |ids|
  {
    if |ids| > 0 {
      var init := ids[..|ids| - 1];
      assert forall id :: id in init ==> id in ids;
      BucketRowsExact(orders, init, now);
    }
  }

  /** Under the invariant a bucket lists resident orders of its side and price, each keyed
      by its own id. */
  lemma BucketResident(b: Book, side: Side, p: Price)
    requires Valid(b) && p in LevelsOf(b, side)
    ensures forall id :: id in LevelsOf(b, side)[p] ==>
      id in b.orders && b.orders[id].id == id && b.orders[id].side == side && b.orders[id].price == p
  {
  }

  /** Every snapshot the buckets at `ps` yield is of an order of that side, at a price of `ps`. */
  lemma {:induction false} LevelRowsFrom(b: Book, side: Side, ps: seq<Price>, now: int)
    requires Valid(b)
    requires forall i :: 0 <= i < |ps| ==> ps[i] in LevelsOf(b, side)
    ensures forall k :: 0 <= k < |LevelRows(b.orders, LevelsOf(b, side), ps, now)| ==>
      LevelRows(b.orders, LevelsOf(b, side), ps, now)[k].side == side
      && LevelRows(b.orders, LevelsOf(b, side), ps, now)[k].price in ps
    decreases |ps|
  {
    if |ps| > 0 {
      var lv := LevelsOf(b, side);
      var init := ps[..|ps| - 1];
      var p := ps[|ps| - 1];
      LevelRowsFrom(b, side, init, now);
      var head := LevelRows(b.orders, lv, init, now);
      var ids := lv[p];
      BucketResident(b, side, p);
      BucketRowsExact(b.orders, ids, now);
      var tail := BucketRows(b.orders, ids, now);
      var rows := head + tail;
      assert LevelRows(b.orders, lv, ps, now) == rows;
      forall k | 0 <= k < |rows| ensures rows[k].side == side && rows[k].price in ps {
        if k < |head| {
          assert rows[k] == head[k];
          var i := IndexOf(init, head[k].price);
          assert ps[i] == init[i];
        } else {
          assert rows[k] == tail[k - |head|];
          assert ids[k - |head|] in ids;
        }
      }
    }
  }

  /** Snapshots in the side's price priority (ties allowed: one bucket's orders share a price). */
  predicate InPriceOrder(rows: seq<MBOLevel>, side: Side) {
    forall k, l :: 0 <= k < l < |rows| ==> Rank(side, rows[k].price) <= Rank(side, rows[l].price)
  }

  /** When `ps` is in the side's price order, so are the snapshots its buckets yield. */
  lemma {:induction false} LevelRowsOrdered(b: Book, side: Side, ps: seq<Price>, now: int)
    requires Valid(b)
    requires forall i :: 0 <= i < |ps| ==> ps[i] in LevelsOf(b, side)
    requires forall i, j :: 0 <= i < j < |ps| ==> Rank(side, ps[i]) < Rank(side, ps[j])
    ensures InPriceOrder(LevelRows(b.orders, LevelsOf(b, side), ps, now), side)
    decreases |ps|
  {
    if |ps| > 0 {
      var lv := LevelsOf(b, side);
      var init := ps[..|ps| - 1];
      var p := ps[|ps| - 1];
      LevelRowsOrdered(b, side, init, now);
      LevelRowsFrom(b, side, init, now);
      var head := LevelRows(b.orders, lv, init, now);
      var ids := lv[p];
      BucketResident(b, side, p);
      BucketRowsExact(b.orders, ids, now);
      var tail := BucketRows(b.orders, ids, now);
      var rows := head + tail;
      assert LevelRows(b.orders, lv, ps, now) == rows;
      assert forall k :: 0 <= k < |tail| ==> tail[k].price == p by {
        forall k | 0 <= k < |tail| ensures tail[k].price == p {
          assert ids[k] in ids;
        }
      }
      forall k | 0 <= k < |head| ensures Rank(side, head[k].price) < Rank(side, p) {
        var i := IndexOf(init, head[k].price);
        assert ps[i] == init[i];
      }
      AppendBucketInPriceOrder(head, tail, side, p);
    }
  }

  /** Snapshots in price order followed by a bucket at a strictly worse price stay in order. */
  lemma AppendBucketInPriceOrder(head: seq<MBOLevel>, tail: seq<MBOLevel>, side: Side, p: Price)
    requires InPriceOrder(head, side)
    requires forall k :: 0 <= k < |head| ==> Rank(side, head[k].price) < Rank(side, p)
    requires forall k :: 0 <= k < |tail| ==> tail[k].price == p
    ensures InPriceOrder(head + tail, side)
  {
    var rows := head + tail;
    forall k, l | 0 <= k < l < |rows|
      ensures Rank(side, rows[k].price) <= Rank(side, rows[l].price)
    {
      if l < |head| {
        assert rows[k] == head[k] && rows[l] == head[l];
      } else if k < |head| {
        assert rows[k] == head[k] && rows[l] == tail[l - |head|];
      } else {
        assert rows[k] == tail[k - |head|] && rows[l] == tail[l - |head|];
      }
    }
  }

  /** One more id of a bucket adds its snapshot when it is resident. */
  lemma BucketRowsStep(orders: map<string, Order>, ids: seq<string>, j: nat, now: int)
    requires j < |ids|
    ensures BucketRows(orders, ids[..j + 1], now)
      == BucketRows(orders, ids[..j], now) + (if ids[j] in orders then [Snapshot(orders[ids[j]], now)] else [])
  {
    assert ids[..j + 1][..j] == ids[..j];
  }

  /** One more price adds its bucket's snapshots. */
  lemma LevelRowsStep(orders: map<string, Order>, lv: Levels, ps: seq<Price>, i: nat, now: int)
    requires i < |ps|
    requires forall k :: 0 <= k < |ps| ==> ps[k] in lv
    ensures LevelRows(orders, lv, ps[..i + 1], now)
      == LevelRows(orders, lv, ps[..i], now) + BucketRows(orders, lv[ps[i]], now)
  {
    assert ps[..i + 1][..i] == ps[..i];
  }

  /** The order-level view: at most `maxLevels * 3` orders, all of the requested side, drawn
      from the best `maxLevels` prices only, and in price priority (bids from the highest price
      down, asks from the lowest up). */
  lemma MboSideShape(b: Book, side: Side, maxLevels: U32, now: int)
    requires Valid(b)
    ensures |MboSide(b, side, maxLevels, now)| <= maxLevels * 3
    ensures var r := MboSide(b, side, maxLevels, now);
      forall k :: 0 <= k < |r| ==> r[k].side == side && r[k].price in TopPrices(b, side, maxLevels)
    ensures InPriceOrder(MboSide(b, side, maxLevels, now), side)
  {
    var top := TopPrices(b, side, maxLevels);
    LevelRowsFrom(b, side, top, now);
    LevelRowsOrdered(b, side, top, now);
    var rows := LevelRows(b.orders, LevelsOf(b, side), top, now);
    RowsPrefixShape(rows, MinNat(|rows|, MboCap(maxLevels)), side, top);
  }

  /** A prefix of snapshots keeps their side, their prices and their price order. */
  lemma RowsPrefixShape(rows: seq<MBOLevel>, n: nat, side: Side, ps: seq<Price>)
    requires n <= |rows|
    requires forall k :: 0 <= k < |rows| ==> rows[k].side == side && rows[k].price in ps
    requires InPriceOrder(rows, side)
    ensures forall k :: 0 <= k < n ==> rows[..n][k].side == side && rows[..n][k].price in ps
    ensures InPriceOrder(rows[..n], side)
  {
    var r := rows[..n];
    forall k, l | 0 <= k < l < |r| ensures Rank(side, r[k].price) <= Rank(side, r[l].price) {
      assert r[k] == rows[k] && r[l] == rows[l];
    }
  }

  /** Bids come out from the highest price down and asks from the lowest up. */
  lemma MboSidePriceDirection(b: Book, maxLevels: U32, now: int)
    requires Valid(b)
    ensures var r := MboSide(b, Bid, maxLevels, now);
      forall k, l :: 0 <= k < l < |r| ==> r[k].price >= r[l].price
    ensures var r := MboSide(b, Ask, maxLevels, now);
      forall k, l :: 0 <= k < l < |r| ==> r[k].price <= r[l].price
  {
    MboSideShape(b, Bid, maxLevels, now);
    MboSideShape(b, Ask, maxLevels, now);
  }

  /** The buckets of a shorter price list come first in the rows of a longer one. */
  lemma {:induction false} LevelRowsPrefix(orders: map<string, Order>, lv: Levels, ps: seq<Price>, n: nat, now: int)
    requires n <= |ps|
    requires forall i :: 0 <= i < |ps| ==> ps[i] in lv
    ensures LevelRows(orders, lv, ps[..n], now) <= LevelRows(orders, lv, ps, now)
    decreases |ps| - n
  {
    if n < |ps| {
      LevelRowsPrefix(orders, lv, ps, n + 1, now);
      assert ps[..n + 1][..n] == ps[..n];
    } else {
      assert ps[..n] == ps;
    }
  }

  /** The ids of the bucket at the side's best price, in insertion order. */
  function BestBucket(b: Book, side: Side): seq<string>
    requires LevelsOf(b, side).Keys != {}
  {
    LevelsOf(b, side)[Best(LevelsOf(b, side).Keys, side)]
  }

  /** The side's ordered iteration starts at its best price. */
  lemma PriceOrderFirst(s: set<int>, side: Side)
    requires s != {}
    ensures |PriceOrder(s, side)| > 0 && PriceOrder(s, side)[0] == Best(s, side)
  {
    var ps := PriceOrder(s, side);
    var best := Best(s, side);
    assert |ps| > 0 by { var x := Pick(s); assert x in ps; }
    var i := IndexOf(ps, best);
  }

  /** With a positive depth, the best prices start at the side's best price. */
  lemma TopPricesFirst(b: Book, side: Side, maxLevels: U32)
    requires maxLevels > 0 && |LevelsOf(b, side)| > 0
    ensures LevelsOf(b, side).Keys != {}
    ensures |TopPrices(b, side, maxLevels)| > 0
    ensures TopPrices(b, side, maxLevels)[0] == Best(LevelsOf(b, side).Keys, side)
  {
    var lv := LevelsOf(b, side);
    assert |lv.Keys| == |lv|;
    PriceOrderFirst(lv.Keys, side);
  }

  /** The capped view starts with the first bucket's snapshots, as far as the cap allows. */
  lemma {:induction false} MboSideFirstBucket(b: Book, side: Side, maxLevels: U32, now: int)
    requires |TopPrices(b, side, maxLevels)| > 0
    requires forall id :: id in LevelsOf(b, side)[TopPrices(b, side, maxLevels)[0]] ==>
      id in b.orders && b.orders[id].id == id
    ensures var ids := LevelsOf(b, side)[TopPrices(b, side, maxLevels)[0]];
      var r := MboSide(b, side, maxLevels, now);
      && |r| >= MinNat(|ids|, MboCap(maxLevels))
      && forall k :: 0 <= k < MinNat(|ids|, MboCap(maxLevels)) ==> r[k].orderId == ids[k]
  {
    var lv := LevelsOf(b, side);
    var top := TopPrices(b, side, maxLevels);
    var p := top[0];
    var ids := lv[p];
    BucketRowsExact(b.orders, ids, now);
    var first := BucketRows(b.orders, ids, now);
    FirstBucketLeads(b.orders, lv, top, now);
    var rows := LevelRows(b.orders, lv, top, now);
    CappedPrefix(rows, first, MboCap(maxLevels));
  }

  /** Capping rows that start with `first` keeps `first` up to the cap. */
  lemma CappedPrefix(rows: seq<MBOLevel>, first: seq<MBOLevel>, cap: nat)
    requires first <= rows
    ensures |rows[..MinNat(|rows|, cap)]| >= MinNat(|first|, cap)
    ensures forall k :: 0 <= k < MinNat(|first|, cap) ==> rows[..MinNat(|rows|, cap)][k] == first[k]
  {
  }

  /** The order-level view lists the ids of the best bucket first, one snapshot per id and in
      insertion order, as far as the `maxLevels * 3` cap allows. */
  lemma MboSideBestBucketFirst(b: Book, side: Side, maxLevels: U32, now: int)
    requires Valid(b) && maxLevels > 0 && LevelsOf(b, side).Keys != {}
    ensures var ids := BestBucket(b, side); var r := MboSide(b, side, maxLevels, now);
      && |r| >= MinNat(|ids|, MboCap(maxLevels))
      && forall k :: 0 <= k < MinNat(|ids|, MboCap(maxLevels)) ==> r[k].orderId == ids[k]
  {
    assert |LevelsOf(b, side)| > 0 by { var p := Pick(LevelsOf(b, side).Keys); }
    TopPricesFirst(b, side, maxLevels);
    BucketResident(b, side, TopPrices(b, side, maxLevels)[0]);
    MboSideFirstBucket(b, side, maxLevels, now);
  }

  /** The rows of a non-empty price list start with the bucket at its first price. */
  lemma FirstBucketLeads(orders: map<string, Order>, lv: Levels, ps: seq<Price>, now: int)
    requires |ps| > 0
    requires forall i :: 0 <= i < |ps| ==> ps[i] in lv
    ensures BucketRows(orders, lv[ps[0]], now) <= LevelRows(orders, lv, ps, now)
  {
    LevelRowsPrefix(orders, lv, ps, 1, now);
    assert ps[..1] == [ps[0]];
    assert [ps[0]][..0] == [];
    assert LevelRows(orders, lv, [ps[0]], now) == BucketRows(orders, lv[ps[0]], now);
  }

  /** The cap as the source computes it: `max_levels * 3` is u32 arithmetic, which wraps
      modulo 2^32 in a release build. */
  function MboCapAsWritten(maxLevels: U32): nat {
    (maxLevels * 3) % U32Limit
  }

  /** `get_mbo_side` with the wrapping cap. */
  function MboSideAsWritten(b: Book, side: Side, maxLevels: U32, now: int): seq<MBOLevel> {
    var rows := LevelRows(b.orders, LevelsOf(b, side), TopPrices(b, side, maxLevels), now);
    rows[..MinNat(|rows|, MboCapAsWritten(maxLevels))]
  }

  /** The wrapping cap agrees with the intended one exactly for depths up to 1431655765. */
  lemma MboCapAgrees(maxLevels: U32)
    ensures MboCapAsWritten(maxLevels) == MboCap(maxLevels) <==> maxLevels <= 1431655765
  {
    if maxLevels > 1431655765 {
      assert U32Limit <= maxLevels * 3 < 3 * U32Limit;
      var q := (maxLevels * 3) / U32Limit;
      assert q >= 1;
    }
  }

  /** At depth 1431655766 the wrapped cap is 2, so a side whose best bucket holds three or more
      orders loses all but two of them, where the intended cap keeps them. */
  lemma MboSideAsWrittenTruncates(b: Book, side: Side, now: int)
    requires Valid(b) && LevelsOf(b, side).Keys != {}
    requires |BestBucket(b, side)| >= 3
    ensures |MboSideAsWritten(b, side, 1431655766, now)| == 2
    ensures |MboSide(b, side, 1431655766, now)| >= 3
  {
    MboSideBestBucketFirst(b, side, 1431655766, now);
    assert MboCapAsWritten(1431655766) == 2;
  }

  // ---------------------------------------------------------------------------------------
  // Price-level view (MBP)

  datatype MBPLevel = MBPLevel(
    price: Price,
    quantity: nat,
    orderCount: nat,
    side: Side,
    totalQuantity: nat,
    avgAgeMs: nat)

  /** `ids.iter().filter_map(|id| orders.get(id))`. */
  function Resident(orders: map<string, Order>, ids: seq<string>): seq<Order>
    decreases |ids|
  {
    if |ids| == 0 then []
    else
      var last := ids[|ids| - 1];
      Resident(orders, ids[..|ids| - 1]) + (if last in orders then [orders[last]] else [])
  }

  function TotalQuantity(os: seq<Order>): nat
    decreases |os|
  {
    if |os| == 0 then 0 else TotalQuantity(os[..|os| - 1]) + os[|os| - 1].quantity
  }

  function TotalAge(os: seq<Order>, now: int): nat
    decreases |os|
  {
    if |os| == 0 then 0 else TotalAge(os[..|os| - 1], now) + AgeMs(os[|os| - 1], now)
  }

  /** The running total carried by the last level so far (0 before the first). */
  function Cumulative(rows: seq<MBPLevel>): nat {
    if |rows| == 0 then 0 else rows[|rows| - 1].totalQuantity
  }

  /** One aggregate per non-empty bucket at prices `ps`, with the running total. */
  function MbpRows(orders: map<string, Order>, lv: Levels, ps: seq<Price>, side: Side, now: int): seq<MBPLevel>
    requires forall i :: 0 <= i < |ps| ==> ps[i] in lv
    decreases |ps|
  {
    if |ps| == 0 then []
    else
      var prev := MbpRows(orders, lv, ps[..|ps| - 1], side, now);
      var p := ps[|ps| - 1];
      var os := Resident(orders, lv[p]);
      if |os| == 0 then prev else prev + [Aggregate(p, os, side, Cumulative(prev), now)]
  }

  /** The level of a non-empty bucket: its price, total quantity, size, the running total
      carried on from `before`, and the mean age rounded down. */
  function Aggregate(p: Price, os: seq<Order>, side: Side, before: nat, now: int): MBPLevel
    requires |os| > 0
  {
    var q := TotalQuantity(os);
    MBPLevel(p, q, |os|, side, before + q, MeanAge(os, now))
  }

  /** `sum of age_ms / len` in u64 arithmetic: the mean age rounded down. */
  function MeanAge(os: seq<Order>, now: int): nat
    requires |os| > 0
  {
    TotalAge(os, now) / |os|
  }

  /** `get_mbp_side`: aggregates of the first `maxLevels` buckets in price order. */
  function MbpSide(b: Book, side: Side, maxLevels: U32, now: int): seq<MBPLevel> {
    MbpRows(b.orders, LevelsOf(b, side), TopPrices(b, side, maxLevels), side, now)
  }

  /** One more price adds its aggregate when the bucket has a resident order. */
  lemma MbpRowsStep(orders: map<string, Order>, lv: Levels, ps: seq<Price>, i: nat, side: Side, now: int)
    requires i < |ps|
    requires forall k :: 0 <= k < |ps| ==> ps[k] in lv
    ensures |Resident(orders, lv[ps[i]])| == 0 ==>
      MbpRows(orders, lv, ps[..i + 1], side, now) == MbpRows(orders, lv, ps[..i], side, now)
    ensures |Resident(orders, lv[ps[i]])| > 0 ==>
      MbpRows(orders, lv, ps[..i + 1], side, now)
        == MbpRows(orders, lv, ps[..i], side, now)
           + [Aggregate(ps[i], Resident(orders, lv[ps[i]]), side, Cumulative(MbpRows(orders, lv, ps[..i], side, now)), now)]
  {
    assert ps[..i + 1][..i] == ps[..i];
  }

  function SumOfQuantities(rows: seq<MBPLevel>): nat
    decreases |rows|
  {
    if |rows| == 0 then 0 else SumOfQuantities(rows[..|rows| - 1]) + rows[|rows| - 1].quantity
  }

  /** `total_quantity` is a running sum: the first level carries its own quantity and each
      later one adds its quantity to the previous total. */
  predicate RunningTotals(r: seq<MBPLevel>) {
    && (|r| > 0 ==> r[0].totalQuantity == r[0].quantity)
    && (forall k :: 0 < k < |r| ==> r[k].totalQuantity == r[k - 1].totalQuantity + r[k].quantity)
  }

  /** The levels carry running totals, and the last total is the sum of all emitted
      quantities. */
  lemma {:induction false} MbpRunningTotal(orders: map<string, Order>, lv: Levels, ps: seq<Price>, side: Side, now: int)
    requires forall i :: 0 <= i < |ps| ==> ps[i] in lv
    ensures |MbpRows(orders, lv, ps, side, now)| <= |ps|
    ensures RunningTotals(MbpRows(orders, lv, ps, side, now))
    ensures Cumulative(MbpRows(orders, lv, ps, side, now)) == SumOfQuantities(MbpRows(orders, lv, ps, side, now))
    decreases |ps|
  {
    if |ps| > 0 {
      var init := ps[..|ps| - 1];
      MbpRunningTotal(orders, lv, init, side, now);
      var prev := MbpRows(orders, lv, init, side, now);
      var p := ps[|ps| - 1];
      var os := Resident(orders, lv[p]);
      if |os| > 0 {
        AppendRunningTotal(prev, Aggregate(p, os, side, Cumulative(prev), now));
      }
    }
  }

  /** A level whose total carries on from the previous ones extends the running sum. */
  lemma AppendRunningTotal(prev: seq<MBPLevel>, level: MBPLevel)
    requires RunningTotals(prev) && Cumulative(prev) == SumOfQuantities(prev)
    requires level.totalQuantity == Cumulative(prev) + level.quantity
    ensures RunningTotals(prev + [level])
    ensures Cumulative(prev + [level]) == SumOfQuantities(prev + [level])
  {
    var r := prev + [level];
    assert r[..|r| - 1] == prev;
    assert forall k :: 0 <= k < |prev| ==> r[k] == prev[k];
  }

  /** Running totals never decrease. */
  lemma {:induction false} RunningTotalsMonotone(r: seq<MBPLevel>)
    requires RunningTotals(r)
    ensures forall k, l :: 0 <= k <= l < |r| ==> r[k].totalQuantity <= r[l].totalQuantity
    decreases |r|
  {
    if |r| > 1 {
      var init := r[..|r| - 1];
      assert forall k :: 0 <= k < |init| ==> init[k] == r[k];
      RunningTotalsMonotone(init);
      forall k, l | 0 <= k <= l < |r| ensures r[k].totalQuantity <= r[l].totalQuantity {
        if l == |r| - 1 && k < l {
          assert r[k].totalQuantity <= r[l - 1].totalQuantity;
        } else if l < |r| - 1 {
          assert init[k] == r[k] && init[l] == r[l];
        }
      }
    }
  }

  /** Under the invariant, every id of a bucket is resident, so the filter keeps them all. */
  lemma {:induction false} ResidentAll(b: Book, side: Side, p: Price)
    requires Valid(b) && p in LevelsOf(b, side)
    ensures |Resident(b.orders, LevelsOf(b, side)[p])| == |LevelsOf(b, side)[p]|
  {
    var ids := LevelsOf(b, side)[p];
    assert forall id :: id in ids ==> id in b.orders;
    ResidentLength(b.orders, ids);
  }

  lemma {:induction false} ResidentLength(orders: map<string, Order>, ids: seq<string>)
    requires forall id :: id in ids ==> id in orders
    ensures |Resident(orders, ids)| == |ids|
    decreases |ids|
  {
    if |ids| > 0 {
      var init := ids[..|ids| - 1];
      assert forall id :: id in init ==> id in ids;
      ResidentLength(orders, init);
    }
  }

  /** When every bucket at `ps` is non-empty and fully resident (as the invariant makes
      them), level k of the rows is the bucket at `ps[k]`: its price, its size as the order
      count and the sum of its quantities. */
  lemma {:induction false} MbpRowsExact(orders: map<string, Order>, lv: Levels, ps: seq<Price>, side: Side, now: int)
    requires forall i :: 0 <= i < |ps| ==> ps[i] in lv
    requires forall i :: 0 <= i < |ps| ==> 0 < |lv[ps[i]]| == |Resident(orders, lv[ps[i]])|
    ensures var r := MbpRows(orders, lv, ps, side, now);
      && |r| == |ps|
      && forall k :: 0 <= k < |r| ==>
           && r[k].price == ps[k] && r[k].side == side
           && r[k].orderCount == |lv[ps[k]]|
           && r[k].quantity == TotalQuantity(Resident(orders, lv[ps[k]]))
    decreases |ps|
  {
    if |ps| > 0 {
      var init := ps[..|ps| - 1];
      MbpRowsExact(orders, lv, init, side, now);
      var prev := MbpRows(orders, lv, init, side, now);
      var p := ps[|ps| - 1];
      var os := Resident(orders, lv[p]);
      var r := MbpRows(orders, lv, ps, side, now);
      assert r == prev + [Aggregate(p, os, side, Cumulative(prev), now)];
      forall k | 0 <= k < |r|
        ensures r[k].price == ps[k] && r[k].side == side && r[k].orderCount == |lv[ps[k]]|
        ensures r[k].quantity == TotalQuantity(Resident(orders, lv[ps[k]]))
      {
        if k < |prev| {
          assert r[k] == prev[k] && ps[k] == init[k];
        }
      }
    }
  }

  /** The price-level view: one level per bucket for the best `min(maxLevels, buckets)`
      prices, in price priority, each with its bucket's total quantity and size. */
  lemma MbpSideShape(b: Book, side: Side, maxLevels: U32, now: int)
    requires Valid(b)
    ensures |MbpSide(b, side, maxLevels, now)| == MinNat(maxLevels, |LevelsOf(b, side)|)
    ensures var lv := LevelsOf(b, side); var top := TopPrices(b, side, maxLevels);
      var r := MbpSide(b, side, maxLevels, now);
      forall k :: 0 <= k < |r| ==>
        && r[k].price == top[k] && r[k].side == side
        && r[k].orderCount == |lv[top[k]]|
        && r[k].quantity == TotalQuantity(Resident(b.orders, lv[top[k]]))
    ensures var r := MbpSide(b, side, maxLevels, now);
      forall k, l :: 0 <= k < l < |r| ==> Rank(side, r[k].price) < Rank(side, r[l].price)
  {
    var lv := LevelsOf(b, side);
    var top := TopPrices(b, side, maxLevels);
    forall i | 0 <= i < |top| ensures 0 < |lv[top[i]]| == |Resident(b.orders, lv[top[i]])| {
      ResidentAll(b, side, top[i]);
    }
    MbpRowsExact(b.orders, lv, top, side, now);
  }

  /** The totals of the price-level view run up the levels and end at the sum of the emitted
      quantities. */
  lemma MbpSideTotals(b: Book, side: Side, maxLevels: U32, now: int)
    ensures RunningTotals(MbpSide(b, side, maxLevels, now))
    ensures var r := MbpSide(b, side, maxLevels, now);
      forall k, l :: 0 <= k <= l < |r| ==> r[k].totalQuantity <= r[l].totalQuantity
    ensures Cumulative(MbpSide(b, side, maxLevels, now)) == SumOfQuantities(MbpSide(b, side, maxLevels, now))
  {
    MbpRunningTotal(b.orders, LevelsOf(b, side), TopPrices(b, side, maxLevels), side, now);
    RunningTotalsMonotone(MbpSide(b, side, maxLevels, now));
  }

  // ---------------------------------------------------------------------------------------
  // Best bid and ask

  /** `get_best_bid_ask`: the highest bid price and the lowest ask price, `None` for an empty
      side. */
  function BestBidAsk(b: Book): (r: (Option<Price>, Option<Price>))
    ensures r.0.Some? <==> b.bids != map[]
    ensures r.1.Some? <==> b.asks != map[]
    ensures r.0.Some? ==> r.0.value in b.bids && forall p :: p in b.bids ==> p <= r.0.value
    ensures r.1.Some? ==> r.1.value in b.asks && forall p :: p in b.asks ==> r.1.value <= p
  {
    var bid := if b.bids == map[] then None else Some(Best(b.bids.Keys, Bid));
    var ask := if b.asks == map[] then None else Some(Best(b.asks.Keys, Ask));
    assert b.bids != map[] ==> b.bids.Keys != {} by {
      if b.bids != map[] { var p :| p in b.bids; assert p in b.bids.Keys; }
    }
    assert b.asks != map[] ==> b.asks.Keys != {} by {
      if b.asks != map[] { var p :| p in b.asks; assert p in b.asks.Keys; }
    }
    (bid, ask)
  }

  /** The best bid is the highest price of any resident bid order, and `None` exactly when no
      bid is resident (and likewise the best ask is the lowest resident ask). */
  lemma BestBidAskOfOrders(b: Book)
    requires Valid(b)
    ensures var r := BestBidAsk(b);
      && (r.0.None? <==> forall id :: id in b.orders ==> b.orders[id].side != Bid)
      && (r.1.None? <==> forall id :: id in b.orders ==> b.orders[id].side != Ask)
      && (r.0.Some? ==>
            (forall id :: id in b.orders && b.orders[id].side == Bid ==> b.orders[id].price <= r.0.value)
            && exists id :: id in b.orders && b.orders[id].side == Bid && b.orders[id].price == r.0.value)
      && (r.1.Some? ==>
            (forall id :: id in b.orders && b.orders[id].side == Ask ==> r.1.value <= b.orders[id].price)
            && exists id :: id in b.orders && b.orders[id].side == Ask && b.orders[id].price == r.1.value)
  {
    var r := BestBidAsk(b);
    if r.0.Some? {
      var ids := b.bids[r.0.value];
      assert ids[0] in ids;
    }
    if r.1.Some? {
      var ids := b.asks[r.1.value];
      assert ids[0] in ids;
    }
  }

  // ---------------------------------------------------------------------------------------
  // Synthetic activity

  datatype ActivityType = Add | Update | Cancel

  datatype OrderActivity = OrderActivity(
    activityType: ActivityType,
    orderId: string,
    symbol: string,
    price: Option<Price>,
    quantity: Option<nat>,
    side: Option<Side>,
    timestamp: int)

  /** The random draws one activity consumes: the kind in [0, 1), the side coin, the price
      perturbation already rounded to ticks, the quantity of a new order, the index of the
      order to touch, the quantity change of an update, and the id of a new order. */
  datatype Draw = Draw(
    kind: real,
    bid: bool,
    priceOffset: int,
    quantity: nat,
    pick: nat,
    delta: int,
    freshId: string)

  /** The ranges the generator draws from. */
  predicate ValidDraw(d: Draw) {
    && 0.0 <= d.kind < 1.0
    && -10 <= d.priceOffset <= 10
    && 1000 <= d.quantity <= 10000
    && -2000 <= d.delta <= 1000
  }

  /** Fallback mid price (100.00) when a side is empty. */
  const FallbackMid: Price := 10000

  /** `ids` lists every resident id once, in whatever order the hash map yields them. */
  ghost predicate IsEnumeration(ids: seq<string>, orders: map<string, Order>) {
    NoDup(ids) && forall id :: id in ids <==> id in orders
  }

  /** Price a new order is placed around: the best price of its own side, else the mid price
      of the book, else 100.00. */
  function BasePrice(b: Book, side: Side): Price {
    var (bid, ask) := BestBidAsk(b);
    var mid := if bid.Some? && ask.Some? then (bid.value + ask.value) / 2 else FallbackMid;
    if side == Bid && bid.Some? then bid.value
    else if side == Ask && ask.Some? then ask.value
    else mid
  }

  function AddActivity(b: Book, d: Draw, symbol: string, now: int): OrderActivity {
    var side := if d.bid then Bid else Ask;
    var p := BasePrice(b, side) + d.priceOffset;
    OrderActivity(Add, d.freshId, symbol, Some(if p >= 1 then p else 1), Some(d.quantity), Some(side), now)
  }

  /** `generate_random_activity`: below 0.4 an add; below 0.7 on a non-empty book an update
      of a chosen order (a cancel when the new quantity would not be positive); otherwise on a
      non-empty book a cancel; on an empty book the source draws again, which can only end in
      an add, so the add is built from this draw. */
  function GenerateActivity(b: Book, ids: seq<string>, d: Draw, symbol: string, now: int): OrderActivity
    requires IsEnumeration(ids, b.orders)
  {
    if d.kind < 0.4 then AddActivity(b, d, symbol, now)
    else if d.kind < 0.7 && |ids| > 0 then
      var id := ids[d.pick % |ids|];
      var q := b.orders[id].quantity + d.delta;
      var newQuantity: nat := if q > 0 then q else 0;
      OrderActivity(if newQuantity > 0 then Update else Cancel, id, symbol, None,
                    if newQuantity > 0 then Some(newQuantity) else None, None, now)
    else if |ids| > 0 then
      OrderActivity(Cancel, ids[d.pick % |ids|], symbol, None, None, None, now)
    else AddActivity(b, d, symbol, now)
  }

  /** `execute_activity`: an add goes through `add_order`, an update through `update_order`
      and a cancel through `remove_order`; an activity missing its fields does nothing. */
  function ExecuteSpec(b: Book, a: OrderActivity, now: int): Book {
    match a.activityType
    case Add =>
      if a.price.Some? && a.quantity.Some? && a.side.Some? then
        AddSpec(b, NewOrder(a.orderId, a.price.value, a.quantity.value, a.side.value, now))
      else b
    case Update =>
      if a.quantity.Some? then UpdateSpec(b, a.orderId, a.quantity.value, now) else b
    case Cancel => RemoveSpec(b, a.orderId)
  }

  /** What the generator produces: adds carry a positive price, a quantity from the drawn
      range and a side; on an empty book only adds come out; updates carry the chosen order's
      quantity plus the drawn change, which is positive; updates and cancels name a resident
      order. */
  lemma GeneratedActivity(b: Book, ids: seq<string>, d: Draw, symbol: string, now: int)
    requires IsEnumeration(ids, b.orders) && ValidDraw(d)
    ensures var a := GenerateActivity(b, ids, d, symbol, now);
      && a.symbol == symbol && a.timestamp == now
      && (b.orders == map[] ==> a.activityType == Add)
      && (a.activityType == Add ==>
            a.price.Some? && a.price.value >= 1 && a.side.Some?
            && a.quantity.Some? && 1000 <= a.quantity.value <= 10000)
      && (a.activityType != Add ==> a.orderId in b.orders)
      && (a.activityType == Update ==>
            a.quantity.Some? && a.quantity.value > 0
            && a.quantity.value == b.orders[a.orderId].quantity + d.delta)
      && (a.activityType == Cancel && 0.4 <= d.kind < 0.7 ==>
            b.orders[a.orderId].quantity + d.delta <= 0)
      && (d.kind < 0.4 ==> a.activityType == Add)
      && (b.orders != map[] && 0.4 <= d.kind ==> a.activityType != Add)
      && (b.orders != map[] && 0.4 <= d.kind < 0.7 ==>
            (a.activityType == Update <==> b.orders[a.orderId].quantity + d.delta > 0))
      && (b.orders != map[] && 0.7 <= d.kind ==> a.activityType == Cancel)
  {
    if |ids| > 0 {
      assert ids[d.pick % |ids|] in ids;
    }
    if b.orders != map[] {
      var x := Pick(b.orders.Keys);
      assert x in ids;
    }
  }

  /** Applying a generated activity to a well-formed book keeps it well formed and always
      moves the sequence on: the generator never produces a no-op. */
  lemma GeneratedActivityAdvances(b: Book, ids: seq<string>, d: Draw, symbol: string, now: int)
    requires Valid(b) && IsEnumeration(ids, b.orders)
    ensures var b' := ExecuteSpec(b, GenerateActivity(b, ids, d, symbol, now), now);
      Valid(b') && b'.sequence > b.sequence
  {
    var a := GenerateActivity(b, ids, d, symbol, now);
    if |ids| > 0 {
      assert ids[d.pick % |ids|] in ids;
    }
    ExecuteKeepsValid(b, a, now);
    match a.activityType
    case Add => AddEffect(b, NewOrder(a.orderId, a.price.value, a.quantity.value, a.side.value, now));
    case Update =>
    case Cancel =>
  }

  /** One step of `simulate_activity`: `a` was generated from `before` with draw `d`, and
      applying it gave `after`, with a higher sequence. */
  ghost predicate SimulationStep(before: Book, a: OrderActivity, after: Book, d: Draw, symbol: string, now: int) {
    && after == ExecuteSpec(before, a, now)
    && after.sequence > before.sequence
    && exists ids :: IsEnumeration(ids, before.orders) && a == GenerateActivity(before, ids, d, symbol, now)
  }

  lemma ExecuteKeepsValid(b: Book, a: OrderActivity, now: int)
    requires Valid(b)
    ensures Valid(ExecuteSpec(b, a, now))
  {
    match a.activityType
    case Add =>
      if a.price.Some? && a.quantity.Some? && a.side.Some? {
        AddKeepsValid(b, NewOrder(a.orderId, a.price.value, a.quantity.value, a.side.value, now));
      }
    case Update =>
      if a.quantity.Some? { UpdateKeepsValid(b, a.orderId, a.quantity.value, now); }
    case Cancel => RemoveKeepsValid(b, a.orderId);
  }
}
