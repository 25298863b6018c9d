/**
 What the per-order map holds: for every order id, what the last entry that named it said.
 */
module L3Orders {
  import opened Wrappers
  import opened Levels
  import opened Reconstruction
  import opened L3Refinement

  /** Entry k is the last of the frame to name the id. */
  ghost predicate LastNames(os: seq<L3Order>, id: OrderId, k: int) {
    0 <= k < |os| && os[k].id == id && forall j | k < j < |os| :: os[j].id != id
  }

  ghost predicate Unnamed(os: seq<L3Order>, id: OrderId) {
    forall k | 0 <= k < |os| :: os[k].id != id
  }

  /** The entry leaves an order resting. */
  ghost predicate Opens(o: L3Order) {
    !o.removed && o.price.Some? && o.size.Some? && o.size.value > 0.0
  }

  /** The order rests exactly as this entry says: at its own side, price and size, or not at all. */
  ghost predicate RestsAs(orders: map<OrderId, Pos>, o: L3Order) {
    && (o.id in orders <==> Opens(o))
    && (o.id in orders ==>
          && orders[o.id].key.isAsk == o.isAsk
          && orders[o.id].key.price == o.price.value
          && orders[o.id].size == o.size.value)
  }

  ghost predicate SameFor(a: map<OrderId, Pos>, b: map<OrderId, Pos>, id: OrderId) {
    (id in a <==> id in b) && (id in a ==> a[id] == b[id])
  }

  lemma OneOrderRests(s: L3State, o: L3Order)
    ensures RestsAs(ApplyOrder(s, o).orders, o)
    ensures forall id | id != o.id :: SameFor(ApplyOrder(s, o).orders, s.orders, id)
  {}

  lemma {:induction false} OrdersRest(s: L3State, os: seq<L3Order>, id: OrderId)
    ensures forall k | LastNames(os, id, k) :: RestsAs(ApplyOrders(s, os).orders, os[k])
    ensures Unnamed(os, id) ==> SameFor(ApplyOrders(s, os).orders, s.orders, id)
  {
    if os != [] {
      var n := |os| - 1;
      var init := os[..n];
      OrdersRest(s, init, id);
      OneOrderRests(ApplyOrders(s, init), os[n]);
      forall k | LastNames(os, id, k)
        ensures RestsAs(ApplyOrders(s, os).orders, os[k])
      {
        if k < n {
          assert LastNames(init, id, k) && init[k] == os[k];
        }
      }
      assert Unnamed(os, id) ==> Unnamed(init, id);
    }
  }

  /**
   One frame, whatever becomes of the book: an id the frame names rests as the last entry naming it says;
   any other rests as before, or not at all after a snapshot.
   */
  lemma FrameRests(source: SnapshotSource, b: Sourced, d: Delta, id: OrderId)
    ensures var orders := ApplyDelta(L3(source), b, d).book.orders;
            && (forall k | LastNames(d.orders, id, k) :: RestsAs(orders, d.orders[k]))
            && (Unnamed(d.orders, id) ==> if d.isSnapshot then id !in orders else SameFor(orders, b.orders, id))
  {
    OrdersRest(L3Start(b, d), d.orders, id);
  }

  /** Entry k of frame i is the last of the run to name the id, and no snapshot came after it. */
  ghost predicate LastNamed(ds: seq<Delta>, id: OrderId, i: int, k: int) {
    && 0 <= i < |ds| && LastNames(ds[i].orders, id, k)
    && forall j | i < j < |ds| :: Unnamed(ds[j].orders, id) && !ds[j].isSnapshot
  }

  /** Frame i is a snapshot, and neither it nor a later frame names the id. */
  ghost predicate NeverSince(ds: seq<Delta>, id: OrderId, i: int) {
    0 <= i < |ds| && ds[i].isSnapshot && forall j | i <= j < |ds| :: Unnamed(ds[j].orders, id)
  }

  /**
   Over any run of frames: every id rests as the last entry naming it since the last snapshot says, and
   an id not named since a snapshot does not rest.
   */
  lemma {:induction false} RunRests(source: SnapshotSource, b: Sourced, ds: seq<Delta>, id: OrderId)
    ensures var orders := ApplyAll(source, b, ds).orders;
            && (forall i, k | LastNamed(ds, id, i, k) :: RestsAs(orders, ds[i].orders[k]))
            && (forall i | NeverSince(ds, id, i) :: id !in orders)
  {
    if ds != [] {
      var n := |ds| - 1;
      var init := ds[..n];
      RunRests(source, b, init, id);
      FrameRests(source, ApplyAll(source, b, init), ds[n], id);
      var orders := ApplyAll(source, b, ds).orders;
      forall i, k | LastNamed(ds, id, i, k)
        ensures RestsAs(orders, ds[i].orders[k])
      {
        if i < n {
          assert LastNamed(init, id, i, k) && init[i] == ds[i];
        }
      }
      forall i | NeverSince(ds, id, i)
        ensures id !in orders
      {
        if i < n {
          assert NeverSince(init, id, i);
        }
      }
    }
  }

  /**
   The L2 book of a run: under the cap, from a snapshot, the size at a level is the sum of the sizes of
   the orders there, and those orders are what the last entries of the frames say.
   */
  lemma RunBookIsItsOrders(source: SnapshotSource, b: Sourced, ds: seq<Delta>, k: Key)
    requires ds != [] && ds[0].isSnapshot
    requires forall i | 0 <= i < |ds| :: !OverCap(ApplyAll(source, b, ds[..i]), ds[i])
    ensures var r := ApplyAll(source, b, ds);
            && At(r.levels, k) == SumAt(r.orders, k)
            && (k in r.levels <==> exists id | id in r.orders :: r.orders[id].key == k)
            && (forall id, i, e | LastNamed(ds, id, i, e) :: RestsAs(r.orders, ds[i].orders[e]))
            && (forall id, i | NeverSince(ds, id, i) :: id !in r.orders)
  {
    L3RunRefines(source, b, ds);
    var r := ApplyAll(source, b, ds);
    SumNonnegative(r.orders, k);
    forall id, i, e | LastNamed(ds, id, i, e)
      ensures RestsAs(r.orders, ds[i].orders[e])
    {
      RunRests(source, b, ds, id);
    }
    forall id, i | NeverSince(ds, id, i)
      ensures id !in r.orders
    {
      RunRests(source, b, ds, id);
    }
  }

  /** A frame that takes the order map over 200 000 orders is refused and leaves the levels alone. */
  lemma OverCapIsRefused(source: SnapshotSource, b: Sourced, d: Delta)
    ensures var r := ApplyDelta(L3(source), b, d);
            |r.book.orders| > 200_000 ==> r.out == ResyncNeeded && r.book.state == Gapped && r.book.levels == b.levels
  {}
}
