/**
 The incremental per-order book of aetelier-connect/src/framework/model.rs:456-551 refines the
 simple one: sum every resting order into its level.
 */
module L3Refinement {
  import opened Levels
  import opened Reconstruction

  /** What an order adds to level k. */
  ghost function Share(p: Pos, k: Key): real {
    if p.key == k then p.size else 0.0
  }

  /** The sum of all orders resting at k. */
  ghost function SumAt(orders: map<OrderId, Pos>, k: Key): real
    decreases |orders|
  {
    if orders == map[] then 0.0
    else
      var id :| id in orders;
      assert (orders - {id}).Keys == orders.Keys - {id};
      Share(orders[id], k) + SumAt(orders - {id}, k)
  }

  /** The L2 projection of an order map, computed from scratch. */
  ghost function Projection(orders: map<OrderId, Pos>): Book {
    map k | k in (set id | id in orders :: orders[id].key) :: SumAt(orders, k)
  }

  ghost predicate AllPositive(orders: map<OrderId, Pos>) {
    forall id | id in orders :: orders[id].size > 0.0
  }

  ghost function At(b: Book, k: Key): real {
    if k in b then b[k] else 0.0
  }

  ghost predicate Positive(b: Book) {
    forall k | k in b :: b[k] > 0.0
  }

  ghost predicate Aggregates(orders: map<OrderId, Pos>, totals: map<Key, real>) {
    AllPositive(orders) && Positive(totals) && forall k: Key :: At(totals, k) == SumAt(orders, k)
  }

  // ---------------------------------------------------------------------------
  // Sums over an order map
  // ---------------------------------------------------------------------------

  lemma {:induction false} SumSplit(orders: map<OrderId, Pos>, id: OrderId, k: Key)
    requires id in orders
    ensures SumAt(orders, k) == Share(orders[id], k) + SumAt(orders - {id}, k)
    decreases |orders|
  {
    var first :| id in orders && first in orders
      && SumAt(orders, k) == Share(orders[first], k) + SumAt(orders - {first}, k);
    if first != id {
      assert (orders - {first}).Keys == orders.Keys - {first};
      assert (orders - {id}).Keys == orders.Keys - {id};
      SumSplit(orders - {first}, id, k);
      SumSplit(orders - {id}, first, k);
      assert orders - {first} - {id} == orders - {id} - {first};
    }
  }

  lemma {:induction false} SumNonnegative(orders: map<OrderId, Pos>, k: Key)
    requires AllPositive(orders)
    ensures SumAt(orders, k) >= 0.0
    ensures SumAt(orders, k) > 0.0 <==> exists id :: id in orders && orders[id].key == k
    decreases |orders|
  {
    if orders != map[] {
      var id :| id in orders;
      assert (orders - {id}).Keys == orders.Keys - {id};
      SumSplit(orders, id, k);
      SumNonnegative(orders - {id}, k);
      if x :| x in orders && orders[x].key == k && x != id {
        assert x in orders - {id} && (orders - {id})[x].key == k;
      }
    }
  }

  lemma SameBook(x: Book, y: Book)
    requires Positive(x) && Positive(y)
    requires forall k: Key :: At(x, k) == At(y, k)
    ensures x == y
  {
    assert forall k :: k in x ==> At(x, k) == x[k] > 0.0;
    assert forall k :: k in y ==> At(y, k) == y[k] > 0.0;
  }

  /** Aggregated totals are the projection: a level is absent exactly when no order rests there. */
  lemma AggregatesIsProjection(orders: map<OrderId, Pos>, totals: map<Key, real>)
    requires Aggregates(orders, totals)
    ensures totals == Projection(orders)
  {
    forall k: Key
      ensures k in totals <==> k in Projection(orders)
      ensures k in totals ==> totals[k] == Projection(orders)[k]
    {
      SumNonnegative(orders, k);
      assert At(totals, k) == SumAt(orders, k);
    }
  }

  // ---------------------------------------------------------------------------
  // One order, then one frame of orders
  // ---------------------------------------------------------------------------

  lemma RemoveKeepsAggregates(s: L3State, id: OrderId)
    requires Aggregates(s.orders, s.totals)
    ensures var s' := RemoveOrder(s, id); Aggregates(s'.orders, s'.totals)
  {
    if id in s.orders {
      var s' := RemoveOrder(s, id);
      forall k: Key
        ensures At(s'.totals, k) == SumAt(s'.orders, k)
      {
        SumSplit(s.orders, id, k);
        SumNonnegative(s.orders - {id}, k);
        assert At(s.totals, k) == SumAt(s.orders, k);
      }
    }
  }

  lemma OrderKeepsAggregates(s: L3State, o: L3Order)
    requires Aggregates(s.orders, s.totals)
    ensures var s' := ApplyOrder(s, o); Aggregates(s'.orders, s'.totals)
  {
    RemoveKeepsAggregates(s, o.id);
    var r := RemoveOrder(s, o.id);
    var s' := ApplyOrder(s, o);
    if s' != r {
      forall k: Key
        ensures At(s'.totals, k) == SumAt(s'.orders, k)
      {
        SumSplit(s'.orders, o.id, k);
        assert o.id !in r.orders;
        assert s'.orders - {o.id} == r.orders;
        assert At(r.totals, k) == SumAt(r.orders, k);
      }
      forall k | k in s'.totals
        ensures s'.totals[k] > 0.0
      {
        SumNonnegative(r.orders, k);
        assert At(r.totals, k) == SumAt(r.orders, k);
      }
    }
  }

  /** Levels a frame did not touch keep their totals. */
  ghost predicate Untouched(s0: L3State, s: L3State) {
    forall k: Key :: k !in s.touched ==> k !in s0.touched && At(s.totals, k) == At(s0.totals, k)
  }

  lemma {:induction false} OrdersKeepAggregates(s: L3State, os: seq<L3Order>)
    requires Aggregates(s.orders, s.totals)
    ensures var s' := ApplyOrders(s, os); Aggregates(s'.orders, s'.totals) && Untouched(s, s')
  {
    if os != [] {
      OrdersKeepAggregates(s, os[..|os| - 1]);
      OrderKeepsAggregates(ApplyOrders(s, os[..|os| - 1]), os[|os| - 1]);
    }
  }

  // ---------------------------------------------------------------------------
  // Writing only the touched levels
  // ---------------------------------------------------------------------------

  lemma {:induction false} SideWritesCover(touched: seq<Key>, totals: map<Key, real>, isAsk: bool)
    ensures var ts := SideWrites(touched, totals, isAsk);
            && (forall t | t in ts :: t.Parsed? && t.write.key in touched && t.write.size == At(totals, t.write.key))
            && (forall k | k in touched && k.isAsk == isAsk :: Parsed(Write(k, At(totals, k))) in ts)
  {
    if touched != [] {
      SideWritesCover(touched[..|touched| - 1], totals, isAsk);
    }
  }

  /** Every write carries its level's total. */
  ghost predicate Carries(ws: seq<Write>, totals: map<Key, real>) {
    forall w | w in ws :: w.size == At(totals, w.key)
  }

  ghost predicate Mentions(ws: seq<Write>, k: Key) {
    exists w | w in ws :: w.key == k
  }

  lemma {:induction false} OverlayCarries(b: Book, ws: seq<Write>, totals: map<Key, real>)
    requires Positive(b) && Positive(totals) && Carries(ws, totals)
    ensures Positive(Overlay(b, ws))
    ensures forall k: Key :: At(Overlay(b, ws), k) == if Mentions(ws, k) then At(totals, k) else At(b, k)
  {
    if ws != [] {
      var init, w := ws[..|ws| - 1], ws[|ws| - 1];
      assert ws == init + [w];
      OverlayCarries(b, init, totals);
      forall k: Key
        ensures Mentions(ws, k) <==> Mentions(init, k) || w.key == k
      {
        if Mentions(init, k) {
          var x :| x in init && x.key == k;
          assert x in ws;
        }
        assert w in ws;
      }
    }
  }

  lemma {:induction false} LoadCarries(ws: seq<Write>, totals: map<Key, real>)
    requires Positive(totals) && Carries(ws, totals)
    ensures Positive(Load(ws))
    ensures forall k: Key :: At(Load(ws), k) == if Mentions(ws, k) then At(totals, k) else 0.0
  {
    if ws != [] {
      var init, w := ws[..|ws| - 1], ws[|ws| - 1];
      assert ws == init + [w];
      LoadCarries(init, totals);
      forall k: Key
        ensures Mentions(ws, k) <==> Mentions(init, k) || w.key == k
      {
        if Mentions(init, k) {
          var x :| x in init && x.key == k;
          assert x in ws;
        }
        assert w in ws;
      }
    }
  }

  lemma LevelWritesCarry(s: L3State)
    ensures var ts := LevelWrites(s); var ws := ReadPrefix(ts);
            WellFormed(ts) && Carries(ws, s.totals) && forall k: Key :: Mentions(ws, k) <==> k in s.touched
  {
    SideWritesCover(s.touched, s.totals, false);
    SideWritesCover(s.touched, s.totals, true);
    var ts := LevelWrites(s);
    var ws := ReadPrefix(ts);
    assert forall w | w in ws :: Parsed(w) in ts;
    forall k: Key | k in s.touched
      ensures Mentions(ws, k)
    {
      var t := Parsed(Write(k, At(s.totals, k)));
      assert t in ts;
      var i :| 0 <= i < |ts| && ts[i] == t;
      assert ws[i] in ws;
    }
  }

  // ---------------------------------------------------------------------------
  // Frames and runs
  // ---------------------------------------------------------------------------

  /** The book is its own order map, projected. */
  ghost predicate Consistent(b: Sourced) {
    && b.initialized
    && AllPositive(b.orders)
    && b.totals == Projection(b.orders)
    && b.levels == b.totals
  }

  ghost predicate OverCap(b: Sourced, d: Delta) {
    |ApplyOrders(L3Start(b, d), d.orders).orders| > L3_MAX_ORDERS
  }

  lemma ProjectionAggregates(orders: map<OrderId, Pos>)
    requires AllPositive(orders)
    ensures Aggregates(orders, Projection(orders))
  {
    forall k: Key
      ensures At(Projection(orders), k) == SumAt(orders, k)
      ensures k in Projection(orders) ==> Projection(orders)[k] > 0.0
    {
      SumNonnegative(orders, k);
    }
  }

  /** One frame under the cap, from a snapshot or on a consistent book, leaves a consistent book. */
  lemma FrameRefines(source: SnapshotSource, b: Sourced, d: Delta)
    requires d.isSnapshot || Consistent(b)
    requires !OverCap(b, d)
    ensures Consistent(ApplyDelta(L3(source), b, d).book)
  {
    var start := L3Start(b, d);
    var s := ApplyOrders(start, d.orders);
    if !d.isSnapshot {
      ProjectionAggregates(b.orders);
    }
    OrdersKeepAggregates(start, d.orders);
    AggregatesIsProjection(s.orders, s.totals);
    LevelWritesCarry(s);
    var ws := ReadPrefix(LevelWrites(s));
    var after := if d.isSnapshot then Load(ws) else Overlay(b.levels, ws);
    if d.isSnapshot {
      LoadCarries(ws, s.totals);
    } else {
      OverlayCarries(b.levels, ws, s.totals);
    }
    SameBook(after, s.totals);
  }

  ghost function ApplyAll(source: SnapshotSource, b: Sourced, ds: seq<Delta>): Sourced {
    if ds == [] then b else ApplyDelta(L3(source), ApplyAll(source, b, ds[..|ds| - 1]), ds[|ds| - 1]).book
  }

  /**
   After any sequence of frames that starts with a snapshot and never exceeds the order cap, the
   incremental level map and the L2 book written level by level both equal the projection of the
   order map, whatever the book held before.
   */
  lemma {:induction false} L3RunRefines(source: SnapshotSource, b: Sourced, ds: seq<Delta>)
    requires ds != [] && ds[0].isSnapshot
    requires forall i | 0 <= i < |ds| :: !OverCap(ApplyAll(source, b, ds[..i]), ds[i])
    ensures var r := ApplyAll(source, b, ds);
            r.totals == Projection(r.orders) && r.levels == Projection(r.orders) && AllPositive(r.orders)
    ensures Consistent(ApplyAll(source, b, ds))
  {
    var init := ds[..|ds| - 1];
    if init != [] {
      assert forall i | 0 <= i < |init| :: init[..i] == ds[..i];
      L3RunRefines(source, b, init);
    }
    FrameRefines(source, ApplyAll(source, b, init), ds[|ds| - 1]);
  }
}
