/**
 Reduction of the fills of one taker order, and removal of repeated trades
 (aetelier-types/src/trades.rs). Prices and amounts are exact.
 */
module Aggregate {
  import opened Wrappers

  datatype Identity = Identity(exchange: string, pair: string, id: string)

  /** `content` stands for what the fingerprint is taken of beside side, price and amount. */
  datatype Trade = Trade(identity: Identity, buy: bool, price: real, amount: real, content: int)

  datatype Error = NoFills | ZeroWidth | MixedFills | NonpositiveQuantity

  datatype Result<T> = Ok(value: T) | Err(error: Error)

  datatype Summary = Summary(
    ts: nat, bucket: nat, width: nat, exchange: string, pair: string, buy: bool, fills: nat,
    qty: real, notional: real, vwap: real,
    pxFirst: real, pxLast: real, pxMin: real, pxMax: real, sweepDepth: real, idFirst: string, idLast: string)

  // ---------------------------------------------------------------------------
  // Sums
  // ---------------------------------------------------------------------------

  function Sum(f: Trade -> real, ts: seq<Trade>): real {
    if ts == [] then 0.0 else Sum(f, ts[..|ts| - 1]) + f(ts[|ts| - 1])
  }

  function Amount(t: Trade): real {
    t.amount
  }

  function Value(t: Trade): real {
    t.price * t.amount
  }

  function Abs(x: real): real {
    if x < 0.0 then -x else x
  }

  predicate Alike(a: Trade, b: Trade) {
    a.buy == b.buy && a.identity.exchange == b.identity.exchange && a.identity.pair == b.identity.pair
  }

  /** `m` is the least, or the greatest, price of the fills. */
  ghost predicate IsExtreme(ts: seq<Trade>, lo: real, hi: real) {
    && (forall i | 0 <= i < |ts| :: lo <= ts[i].price <= hi)
    && (exists i :: 0 <= i < |ts| && ts[i].price == lo)
    && (exists i :: 0 <= i < |ts| && ts[i].price == hi)
  }

  /** Why the fills are refused, None when they are not. */
  ghost function Refusal(ts: seq<Trade>, width: nat): Option<Error> {
    if ts == [] then Some(NoFills)
    else if width == 0 then Some(ZeroWidth)
    else if exists i :: 0 <= i < |ts| && !Alike(ts[0], ts[i]) then Some(MixedFills)
    else if Sum(Amount, ts) <= 0.0 then Some(NonpositiveQuantity)
    else None
  }

  method FromFills(ts: seq<Trade>, bucket: nat, width: nat) returns (r: Result<Summary>)
    ensures r.Err? <==> Refusal(ts, width).Some?
    ensures r.Err? ==> Refusal(ts, width) == Some(r.error)
    ensures r.Ok? ==>
              && r.value.ts == r.value.bucket == bucket && r.value.width == width && r.value.fills == |ts|
              && (forall i | 0 <= i < |ts| :: ts[i].identity.exchange == r.value.exchange
                    && ts[i].identity.pair == r.value.pair && ts[i].buy == r.value.buy)
              && r.value.qty == Sum(Amount, ts) > 0.0 && r.value.notional == Sum(Value, ts)
              && r.value.vwap * r.value.qty == r.value.notional
              && r.value.pxFirst == ts[0].price && r.value.pxLast == ts[|ts| - 1].price
              && IsExtreme(ts, r.value.pxMin, r.value.pxMax)
              && r.value.sweepDepth == Abs(r.value.pxLast - r.value.pxFirst)
              && 0.0 <= r.value.sweepDepth <= r.value.pxMax - r.value.pxMin
              && r.value.idFirst == ts[0].identity.id && r.value.idLast == ts[|ts| - 1].identity.id
    ensures r.Ok? && (forall i | 0 <= i < |ts| :: ts[i].amount >= 0.0) ==>
              r.value.pxMin <= r.value.vwap <= r.value.pxMax
  {
    if |ts| == 0 {
      return Err(NoFills);
    }
    if width == 0 {
      return Err(ZeroWidth);
    }
    var first := ts[0];
    for i := 0 to |ts|
      invariant forall j | 0 <= j < i :: Alike(first, ts[j])
    {
      if !Alike(first, ts[i]) {
        return Err(MixedFills);
      }
    }
    var qty, notional, lo, hi := Accumulate(ts);
    if qty <= 0.0 {
      return Err(NonpositiveQuantity);
    }
    var last := ts[|ts| - 1];
    var vwap := notional / qty;
    QuotientTimes(notional, qty);
    if forall i | 0 <= i < |ts| :: ts[i].amount >= 0.0 {
      AverageIsBetween(ts, lo, hi, vwap);
    }
    r := Ok(Summary(bucket, bucket, width,
                    first.identity.exchange, first.identity.pair, first.buy, |ts|,
                    qty, notional, vwap, first.price, last.price, lo, hi,
                    Abs(last.price - first.price), first.identity.id, last.identity.id));
  }

  lemma QuotientTimes(a: real, q: real)
    requires q > 0.0
    ensures a / q * q == a
  {}

  method Accumulate(ts: seq<Trade>) returns (qty: real, notional: real, lo: real, hi: real)
    requires |ts| > 0
    ensures qty == Sum(Amount, ts) && notional == Sum(Value, ts) && IsExtreme(ts, lo, hi)
  {
    qty, notional, lo, hi := 0.0, 0.0, ts[0].price, ts[0].price;
    for i := 0 to |ts|
      invariant qty == Sum(Amount, ts[..i]) && notional == Sum(Value, ts[..i])
      invariant forall j | 0 <= j < i :: lo <= ts[j].price <= hi
      invariant exists j :: 0 <= j < |ts| && ts[j].price == lo
      invariant exists j :: 0 <= j < |ts| && ts[j].price == hi
    {
      assert ts[..i + 1][..i] == ts[..i];
      var f := ts[i];
      qty := qty + Amount(f);
      notional := notional + Value(f);
      lo := if f.price < lo then f.price else lo;
      hi := if f.price > hi then f.price else hi;
    }
    assert ts[..|ts|] == ts;
  }

  // ---------------------------------------------------------------------------
  // Price bounds
  // ---------------------------------------------------------------------------

  lemma Weighted(a: real, b: real, w: real)
    requires a <= b && w >= 0.0
    ensures a * w <= b * w
  {
    assert (b - a) * w >= 0.0;
  }

  /** A notional between two prices times a quantity. */
  ghost predicate Within(lo: real, hi: real, qty: real, notional: real) {
    lo * qty <= notional <= hi * qty
  }

  lemma {:induction false} NotionalIsBetween(ts: seq<Trade>, lo: real, hi: real)
    requires forall i | 0 <= i < |ts| :: ts[i].amount >= 0.0 && lo <= ts[i].price <= hi
    ensures Within(lo, hi, Sum(Amount, ts), Sum(Value, ts))
  {
    if ts == [] {
      NothingIsWithin(lo, hi);
    } else {
      var init, t := ts[..|ts| - 1], ts[|ts| - 1];
      NotionalIsBetween(init, lo, hi);
      OneMoreFill(lo, hi, Sum(Amount, init), Sum(Value, init), t.price, t.amount);
    }
  }

  lemma NothingIsWithin(lo: real, hi: real)
    ensures Within(lo, hi, 0.0, 0.0)
  {}

  lemma OneMoreFill(lo: real, hi: real, q: real, v: real, price: real, amount: real)
    requires Within(lo, hi, q, v) && lo <= price <= hi && amount >= 0.0
    ensures Within(lo, hi, q + amount, v + price * amount)
  {
    Weighted(lo, price, amount);
    Weighted(price, hi, amount);
    assert lo * (q + amount) == lo * q + lo * amount;
    assert hi * (q + amount) == hi * q + hi * amount;
  }

  lemma AverageIsBetween(ts: seq<Trade>, lo: real, hi: real, vwap: real)
    requires forall i | 0 <= i < |ts| :: ts[i].amount >= 0.0 && lo <= ts[i].price <= hi
    requires Sum(Amount, ts) > 0.0 && vwap * Sum(Amount, ts) == Sum(Value, ts)
    ensures lo <= vwap <= hi
  {
    NotionalIsBetween(ts, lo, hi);
    QuotientIsBetween(lo, hi, vwap, Sum(Amount, ts), Sum(Value, ts));
  }

  lemma QuotientIsBetween(lo: real, hi: real, x: real, q: real, v: real)
    requires q > 0.0 && Within(lo, hi, q, v) && x * q == v
    ensures lo <= x <= hi
  {
    Cancel(lo, x, q);
    Cancel(x, hi, q);
  }

  lemma Cancel(a: real, b: real, q: real)
    requires q > 0.0 && a * q <= b * q
    ensures a <= b
  {}

  /** The fills with other prices. */
  ghost function Priced(ts: seq<Trade>, px: seq<real>): seq<Trade>
    requires |px| == |ts|
  {
    seq(|ts|, i requires 0 <= i < |ts| => ts[i].(price := px[i]))
  }

  /** The notional of the fills at these prices lies between the extremes. */
  ghost predicate Between(ts: seq<Trade>, px: seq<real>)
    requires |px| == |ts|
  {
    forall lo, hi | IsExtreme(Priced(ts, px), lo, hi) :: Within(lo, hi, Sum(Amount, ts), Sum(Value, Priced(ts, px)))
  }

  lemma {:induction false} PricesKeepAmounts(ts: seq<Trade>, px: seq<real>)
    requires |px| == |ts|
    ensures Sum(Amount, Priced(ts, px)) == Sum(Amount, ts)
  {
    if ts != [] {
      PricesKeepAmounts(ts[..|ts| - 1], px[..|ts| - 1]);
      assert Priced(ts, px)[..|ts| - 1] == Priced(ts[..|ts| - 1], px[..|ts| - 1]);
    }
  }

  /** Price one at `k`, zero elsewhere. */
  ghost function Spike(n: nat, k: nat): seq<real> {
    seq(n, i => if i == k then 1.0 else 0.0)
  }

  lemma {:induction false} SpikeValue(ts: seq<Trade>, k: nat)
    ensures Sum(Value, Priced(ts, Spike(|ts|, k))) == if k < |ts| then ts[k].amount else 0.0
  {
    if ts != [] {
      var init := ts[..|ts| - 1];
      SpikeValue(init, k);
      assert Priced(ts, Spike(|ts|, k))[..|init|] == Priced(init, Spike(|init|, k));
    }
  }

  lemma NegativeAmountEscapes(ts: seq<Trade>, k: nat)
    requires k < |ts| && ts[k].amount < 0.0 && Sum(Amount, ts) > 0.0
    ensures exists px :: |px| == |ts| && !Between(ts, px)
  {
    var px := Spike(|ts|, k);
    var at := Priced(ts, px);
    SpikeValue(ts, k);
    assert ts[..0] == [];
    assert |ts| > 1;
    assert IsExtreme(at, 0.0, 1.0) by {
      assert at[k].price == 1.0;
      assert at[if k == 0 then 1 else 0].price == 0.0;
    }
    ZeroTimes(Sum(Amount, ts));
    assert !Between(ts, px);
  }

  lemma ZeroTimes(x: real)
    ensures 0.0 * x == 0.0
  {}

  lemma NonnegativeAmountsHold(ts: seq<Trade>, px: seq<real>)
    requires |px| == |ts| && forall i | 0 <= i < |ts| :: ts[i].amount >= 0.0
    ensures Between(ts, px)
  {
    PricesKeepAmounts(ts, px);
    var at := Priced(ts, px);
    assert forall i | 0 <= i < |at| :: at[i].amount == ts[i].amount;
    forall lo, hi | IsExtreme(at, lo, hi)
      ensures Within(lo, hi, Sum(Amount, at), Sum(Value, at))
    {
      NotionalIsBetween(at, lo, hi);
    }
  }

  /**
   For fills of positive total quantity, the notional lies between the extreme prices times the
   quantity, whatever the prices are, exactly when no amount is negative.
   */
  lemma BoundsHoldIff(ts: seq<Trade>)
    requires Sum(Amount, ts) > 0.0
    ensures (forall px | |px| == |ts| :: Between(ts, px)) <==> forall i | 0 <= i < |ts| :: ts[i].amount >= 0.0
  {
    if forall i | 0 <= i < |ts| :: ts[i].amount >= 0.0 {
      forall px | |px| == |ts|
        ensures Between(ts, px)
      {
        NonnegativeAmountsHold(ts, px);
      }
    } else {
      var i :| 0 <= i < |ts| && ts[i].amount < 0.0;
      NegativeAmountEscapes(ts, i);
    }
  }

  // ---------------------------------------------------------------------------
  // Order of the fills
  // ---------------------------------------------------------------------------

  lemma {:induction false} SumWithout(f: Trade -> real, ts: seq<Trade>, k: nat)
    requires k < |ts|
    ensures Sum(f, ts) == Sum(f, ts[..k] + ts[k + 1..]) + f(ts[k])
  {
    var init := ts[..|ts| - 1];
    if k < |init| {
      SumWithout(f, init, k);
      assert (ts[..k] + ts[k + 1..])[..|ts| - 2] == init[..k] + init[k + 1..];
    } else {
      assert ts[..k] + ts[k + 1..] == init;
    }
  }

  lemma RemoveOne(ts: seq<Trade>, k: nat)
    requires k < |ts|
    ensures multiset(ts[..k] + ts[k + 1..]) == multiset(ts) - multiset{ts[k]}
  {
    assert ts == ts[..k] + [ts[k]] + ts[k + 1..];
  }

  lemma {:induction false} SumIsOrderFree(f: Trade -> real, a: seq<Trade>, b: seq<Trade>)
    requires multiset(a) == multiset(b)
    ensures Sum(f, a) == Sum(f, b)
  {
    if a == [] {
      assert |multiset(b)| == 0;
    } else {
      var init, t := a[..|a| - 1], a[|a| - 1];
      assert a == init + [t];
      assert t in multiset(b);
      var k :| 0 <= k < |b| && b[k] == t;
      RemoveOne(b, k);
      RemoveOne(a, |a| - 1);
      assert a[..|a| - 1] + a[|a|..] == init;
      SumIsOrderFree(f, init, b[..k] + b[k + 1..]);
      SumWithout(f, b, k);
    }
  }

  /** Quantity, notional and the extremes do not depend on the order of the fills. */
  lemma TotalsAreOrderFree(a: seq<Trade>, b: seq<Trade>, lo: real, hi: real)
    requires multiset(a) == multiset(b)
    ensures Sum(Amount, a) == Sum(Amount, b) && Sum(Value, a) == Sum(Value, b)
    ensures IsExtreme(a, lo, hi) <==> IsExtreme(b, lo, hi)
  {
    SumIsOrderFree(Amount, a, b);
    SumIsOrderFree(Value, a, b);
    if IsExtreme(a, lo, hi) {
      ExtremesMove(a, b, lo, hi);
    }
    if IsExtreme(b, lo, hi) {
      ExtremesMove(b, a, lo, hi);
    }
  }

  lemma ExtremesMove(a: seq<Trade>, b: seq<Trade>, lo: real, hi: real)
    requires multiset(a) == multiset(b) && IsExtreme(a, lo, hi)
    ensures IsExtreme(b, lo, hi)
  {
    forall i | 0 <= i < |b|
      ensures lo <= b[i].price <= hi
    {
      assert b[i] in multiset(b) && b[i] in multiset(a);
    }
    var i :| 0 <= i < |a| && a[i].price == lo;
    var j :| 0 <= j < |a| && a[j].price == hi;
    assert a[i] in multiset(b) && a[j] in multiset(b);
  }

  // ---------------------------------------------------------------------------
  // Repeated identities
  // ---------------------------------------------------------------------------

  datatype Dedup = Dedup(kept: seq<Trade>, removed: nat, conflicts: nat)

  /** The retained copy of an identity, if there is one. */
  function Find(kept: seq<Trade>, id: Identity): Option<Trade> {
    if kept == [] then None
    else if kept[0].identity == id then Some(kept[0])
    else Find(kept[1..], id)
  }

  function Meet(d: Dedup, fingerprint: Trade -> int, t: Trade): Dedup {
    match Find(d.kept, t.identity)
    case None => d.(kept := d.kept + [t])
    case Some(first) =>
      d.(removed := d.removed + 1, conflicts := d.conflicts + if fingerprint(first) != fingerprint(t) then 1 else 0)
  }

  function Fold(d: Dedup, fingerprint: Trade -> int, ts: seq<Trade>): Dedup {
    if ts == [] then d else Meet(Fold(d, fingerprint, ts[..|ts| - 1]), fingerprint, ts[|ts| - 1])
  }

  function Deduped(fingerprint: Trade -> int, ts: seq<Trade>): Dedup {
    Fold(Dedup([], 0, 0), fingerprint, ts)
  }

  ghost predicate DistinctIds(ts: seq<Trade>) {
    forall i, j | 0 <= i < j < |ts| :: ts[i].identity != ts[j].identity
  }

  ghost predicate SeenIs(seen: map<Identity, int>, kept: seq<Trade>, fingerprint: Trade -> int) {
    forall id ::
      (id in seen <==> Find(kept, id).Some?) && (id in seen ==> seen[id] == fingerprint(Find(kept, id).value))
  }

  lemma {:induction false} FindSnoc(kept: seq<Trade>, t: Trade, id: Identity)
    ensures Find(kept + [t], id) ==
            if Find(kept, id).Some? then Find(kept, id) else if t.identity == id then Some(t) else None
  {
    if kept != [] {
      FindSnoc(kept[1..], t, id);
      assert (kept + [t])[1..] == kept[1..] + [t];
    }
  }

  lemma {:induction false} FindMeans(kept: seq<Trade>, id: Identity)
    ensures Find(kept, id).None? <==> forall i | 0 <= i < |kept| :: kept[i].identity != id
    ensures Find(kept, id).Some? ==> Find(kept, id).value in kept && Find(kept, id).value.identity == id
  {
    if kept != [] {
      FindMeans(kept[1..], id);
      assert forall i | 0 < i < |kept| :: kept[i] == kept[1..][i - 1];
    }
  }

  /** One pass over the rows with a map of what was kept; `fingerprint` is any function of a row. */
  method DedupByIdentity(ts: seq<Trade>, fingerprint: Trade -> int) returns (r: Dedup)
    ensures r == Deduped(fingerprint, ts)
  {
    var kept, removed, conflicts := [], 0, 0;
    var seen: map<Identity, int> := map[];
    for i := 0 to |ts|
      invariant Dedup(kept, removed, conflicts) == Deduped(fingerprint, ts[..i])
      invariant SeenIs(seen, kept, fingerprint)
    {
      assert ts[..i + 1][..i] == ts[..i];
      var t := ts[i];
      if t.identity in seen {
        removed := removed + 1;
        if seen[t.identity] != fingerprint(t) {
          conflicts := conflicts + 1;
        }
      } else {
        ghost var before := kept;
        seen := seen[t.identity := fingerprint(t)];
        kept := kept + [t];
        forall id
          ensures Find(kept, id) ==
                  if Find(before, id).Some? then Find(before, id) else if t.identity == id then Some(t) else None
        {
          FindSnoc(before, t, id);
        }
      }
    }
    assert ts[..|ts|] == ts;
    r := Dedup(kept, removed, conflicts);
  }

  lemma {:induction false} FoldConcat(d: Dedup, fingerprint: Trade -> int, a: seq<Trade>, b: seq<Trade>)
    ensures Fold(d, fingerprint, a + b) == Fold(Fold(d, fingerprint, a), fingerprint, b)
  {
    if b == [] {
      assert a + b == a;
    } else {
      FoldConcat(d, fingerprint, a, b[..|b| - 1]);
      assert (a + b)[..|a + b| - 1] == a + b[..|b| - 1];
    }
  }

  /** Nothing is lost, nothing repeats, and the copy kept is the first. */
  lemma {:induction false} DedupKeepsFirsts(fingerprint: Trade -> int, ts: seq<Trade>)
    ensures var d := Deduped(fingerprint, ts);
            && |d.kept| + d.removed == |ts| && d.conflicts <= d.removed && DistinctIds(d.kept)
            && (forall id :: Find(d.kept, id) == Find(ts, id))
            && (forall t | t in d.kept :: t in ts)
  {
    if ts != [] {
      var init, t := ts[..|ts| - 1], ts[|ts| - 1];
      DedupKeepsFirsts(fingerprint, init);
      assert ts == init + [t];
      var d := Deduped(fingerprint, init);
      FindMeans(d.kept, t.identity);
      forall id
        ensures Find(Deduped(fingerprint, ts).kept, id) == Find(ts, id)
      {
        FindSnoc(init, t, id);
        FindSnoc(d.kept, t, id);
      }
    }
  }

  /** No earlier row has the identity of row k. */
  ghost predicate IsFirst(ts: seq<Trade>, k: int) {
    0 <= k < |ts| && forall i | 0 <= i < k :: ts[i].identity != ts[k].identity
  }

  /** Where identities first occur, ascending. */
  ghost function FirstPlaces(ts: seq<Trade>): seq<nat> {
    if ts == [] then []
    else FirstPlaces(ts[..|ts| - 1]) + if IsFirst(ts, |ts| - 1) then [|ts| - 1] else []
  }

  ghost predicate Ascending(ns: seq<nat>) {
    forall i, j | 0 <= i < j < |ns| :: ns[i] < ns[j]
  }

  lemma {:induction false} FirstPlacesMean(ts: seq<Trade>)
    ensures Ascending(FirstPlaces(ts))
    ensures forall k :: k in FirstPlaces(ts) <==> IsFirst(ts, k)
    ensures forall i | 0 <= i < |FirstPlaces(ts)| :: FirstPlaces(ts)[i] < |ts|
  {
    if ts != [] {
      var n := |ts| - 1;
      var init := ts[..n];
      FirstPlacesMean(init);
      forall k
        ensures IsFirst(ts, k) <==> IsFirst(init, k) || (k == n && IsFirst(ts, n))
      {
        if 0 <= k < n {
          assert forall i | 0 <= i <= k :: ts[i] == init[i];
        }
      }
      forall k
        ensures k in FirstPlaces(ts) <==> k in FirstPlaces(init) || (k == n && IsFirst(ts, n))
      {}
    }
  }

  /** The later rows whose fingerprint differs from that of the first row of their identity. */
  ghost function Clashes(fingerprint: Trade -> int, ts: seq<Trade>): set<nat> {
    set k: nat | k < |ts| && Clash(fingerprint, ts, k)
  }

  ghost predicate Clash(fingerprint: Trade -> int, ts: seq<Trade>, k: nat)
    requires k < |ts|
  {
    exists i :: 0 <= i < k && IsFirst(ts, i) && ts[i].identity == ts[k].identity
                && fingerprint(ts[i]) != fingerprint(ts[k])
  }

  /** The kept rows are the rows at these places, in order. */
  ghost predicate TakenFrom(kept: seq<Trade>, ts: seq<Trade>, places: seq<nat>) {
    |kept| == |places| && forall i | 0 <= i < |kept| :: places[i] < |ts| && kept[i] == ts[places[i]]
  }

  lemma {:induction false} FindIsFirst(ts: seq<Trade>, i: nat)
    requires IsFirst(ts, i)
    ensures Find(ts, ts[i].identity) == Some(ts[i])
  {
    if i > 0 {
      assert forall k | 0 < k < |ts| :: ts[k] == ts[1..][k - 1];
      FindIsFirst(ts[1..], i - 1);
    }
  }

  lemma {:induction false} FirstExists(ts: seq<Trade>, k: nat) returns (i: nat)
    requires k < |ts|
    ensures i <= k && IsFirst(ts, i) && ts[i].identity == ts[k].identity
  {
    if IsFirst(ts, k) {
      i := k;
    } else {
      var j :| 0 <= j < k && ts[j].identity == ts[k].identity;
      i := FirstExists(ts, j);
    }
  }

  ghost predicate Faithful(fingerprint: Trade -> int, ts: seq<Trade>, d: Dedup) {
    && TakenFrom(d.kept, ts, FirstPlaces(ts)) && d.removed == |ts| - |FirstPlaces(ts)|
    && d.conflicts == |Clashes(fingerprint, ts)|
  }

  lemma MeetIsFaithful(fingerprint: Trade -> int, init: seq<Trade>, t: Trade, d: Dedup)
    requires Faithful(fingerprint, init, d) && Find(d.kept, t.identity) == Find(init, t.identity)
    ensures Faithful(fingerprint, init + [t], Meet(d, fingerprint, t))
  {
    var ts := init + [t];
    assert ts[..|init|] == init;
    LastClash(fingerprint, ts);
    OneMoreTaken(d.kept, init, FirstPlaces(init), t);
  }

  /**
   The rows kept are those at the first places of their identities, in input order; the rows removed
   are the others; and the conflicts are the removed rows that differ from the row kept for them.
   */
  lemma {:induction false} DedupKeepsOrder(fingerprint: Trade -> int, ts: seq<Trade>)
    ensures Faithful(fingerprint, ts, Deduped(fingerprint, ts))
    ensures Ascending(FirstPlaces(ts)) && forall k :: k in FirstPlaces(ts) <==> IsFirst(ts, k)
  {
    FirstPlacesMean(ts);
    if ts != [] {
      var init, t := ts[..|ts| - 1], ts[|ts| - 1];
      DedupKeepsOrder(fingerprint, init);
      DedupKeepsFirsts(fingerprint, init);
      assert ts == init + [t];
      MeetIsFaithful(fingerprint, init, t, Deduped(fingerprint, init));
    }
  }

  lemma OneMoreTaken(kept: seq<Trade>, init: seq<Trade>, places: seq<nat>, t: Trade)
    requires TakenFrom(kept, init, places)
    ensures TakenFrom(kept, init + [t], places) && TakenFrom(kept + [t], init + [t], places + [|init|])
  {}

  /** The last row is removed unless it is a first, and conflicts when it differs from the first. */
  lemma LastClash(fingerprint: Trade -> int, ts: seq<Trade>)
    requires ts != []
    ensures var n := |ts| - 1; var first := Find(ts[..n], ts[n].identity);
            && (first.None? <==> IsFirst(ts, n))
            && |Clashes(fingerprint, ts)| == |Clashes(fingerprint, ts[..n])|
               + if first.Some? && fingerprint(first.value) != fingerprint(ts[n]) then 1 else 0
  {
    var n := |ts| - 1;
    var init, t := ts[..n], ts[n];
    FindMeans(init, t.identity);
    assert forall k | 0 <= k < n :: IsFirst(ts, k) <==> IsFirst(init, k);
    assert forall k: nat | k < n :: Clash(fingerprint, ts, k) <==> Clash(fingerprint, init, k);
    if !IsFirst(ts, n) {
      var j :| 0 <= j < n && ts[j].identity == t.identity;
      var i := FirstExists(ts, j);
      assert IsFirst(init, i);
      FindIsFirst(init, i);
      assert Clash(fingerprint, ts, n) <==> fingerprint(ts[i]) != fingerprint(t);
    }
    assert Clashes(fingerprint, ts)
        == Clashes(fingerprint, init) + if Clash(fingerprint, ts, n) then {n as nat} else {};
  }

  lemma {:induction false} DistinctIsKept(fingerprint: Trade -> int, ts: seq<Trade>)
    requires DistinctIds(ts)
    ensures Deduped(fingerprint, ts) == Dedup(ts, 0, 0)
  {
    if ts != [] {
      var init, t := ts[..|ts| - 1], ts[|ts| - 1];
      DistinctIsKept(fingerprint, init);
      FindMeans(init, t.identity);
      assert ts == init + [t];
    }
  }

  lemma {:induction false} CountsAdd(d: Dedup, fingerprint: Trade -> int, ts: seq<Trade>)
    ensures var alone := Fold(Dedup(d.kept, 0, 0), fingerprint, ts);
            Fold(d, fingerprint, ts) == Dedup(alone.kept, d.removed + alone.removed, d.conflicts + alone.conflicts)
  {
    if ts != [] {
      CountsAdd(d, fingerprint, ts[..|ts| - 1]);
    }
  }

  /**
   Deduplicating in batches is deduplicating once: the same rows survive, and the counts add up. With
   an empty second batch this is idempotence.
   */
  lemma DedupIsIncremental(fingerprint: Trade -> int, a: seq<Trade>, b: seq<Trade>)
    ensures var first := Deduped(fingerprint, a);
            var second := Deduped(fingerprint, first.kept + b);
            Deduped(fingerprint, a + b)
            == Dedup(second.kept, first.removed + second.removed, first.conflicts + second.conflicts)
  {
    var first := Deduped(fingerprint, a);
    DedupKeepsFirsts(fingerprint, a);
    FoldConcat(Dedup([], 0, 0), fingerprint, a, b);
    FoldConcat(Dedup([], 0, 0), fingerprint, first.kept, b);
    DistinctIsKept(fingerprint, first.kept);
    CountsAdd(first, fingerprint, b);
  }
}
