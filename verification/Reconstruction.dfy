/**
 The reconstructed order book of aetelier-connect/src/framework/model.rs: one `apply` per frame,
 selected by the venue's reconstruction model.

 Every operation is a function on the value `Sourced`; the class `SourcedOrderbook` is the
 object the source mutates, proved to compute those functions.
 */
module Reconstruction {
  import opened Wrappers
  import opened Levels

  datatype OrderBookState = Empty | Synced | Gapped | Closed

  datatype SeqPredicate = RangeInclusive | ExactPrev | Monotonic

  datatype SnapshotSource = RestSnapshot | ReqOnSocket | WssSelfSeed

  datatype ReconstructionModel =
    | FullRefresh
    | SeqDelta(continuity: SeqPredicate, source: SnapshotSource)
    | L3(source: SnapshotSource)
  {
    function SeedSource(): Option<SnapshotSource> {
      match this
      case FullRefresh => None
      case SeqDelta(_, source) => Some(source)
      case L3(source) => Some(source)
    }

    predicate NeedsRest() {
      SeedSource() == Some(RestSnapshot)
    }

    predicate SeedsOutOfBand() {
      SeedSource() == Some(RestSnapshot) || SeedSource() == Some(ReqOnSocket)
    }
  }

  type OrderId = string

  /** One per-order change; `None` is a decimal string that does not parse. */
  datatype L3Order = L3Order(id: OrderId, isAsk: bool, price: Option<real>, size: Option<real>, removed: bool)

  datatype Delta = Delta(levels: seq<Text>, orders: seq<L3Order>, updateId: nat, sequence: nat, isSnapshot: bool)

  /** One resting order's position. */
  datatype Pos = Pos(key: Key, size: real)

  datatype Sourced = Sourced(
    levels: Book,
    initialized: bool,
    last: Option<nat>,
    state: OrderBookState,
    orders: map<OrderId, Pos>,
    totals: map<Key, real>)

  const FRESH := Sourced(map[], false, None, Empty, map[], map[])

  datatype BookOutput = Applied | Snapshot | ResyncNeeded

  datatype Outcome = Outcome(book: Sourced, out: BookOutput)

  const L3_MAX_ORDERS: nat := 200_000

  // ---------------------------------------------------------------------------
  // The operations
  // ---------------------------------------------------------------------------

  function Gap(b: Sourced): Outcome {
    Outcome(b.(state := Gapped), ResyncNeeded)
  }

  /** Hand a frame to the level engine and, when it takes it, move the id forward. */
  function Accept(b: Sourced, texts: seq<Text>, isSnapshot: bool, updateId: nat): Outcome {
    if isSnapshot then
      var b' := b.(levels := Load(ReadPrefix(texts)));
      if WellFormed(texts)
      then Outcome(b'.(initialized := true, last := Some(updateId), state := Synced), Snapshot)
      else Gap(b')
    else if !b.initialized then Gap(b)
    else
      var b' := b.(levels := Overlay(b.levels, ReadPrefix(texts)));
      if WellFormed(texts) then Outcome(b'.(last := Some(updateId), state := Synced), Applied) else Gap(b')
  }

  predicate Continuous(p: SeqPredicate, last: nat, d: Delta) {
    match p
    case RangeInclusive => d.sequence <= last + 1 && d.updateId > last
    case ExactPrev => d.sequence == last
    case Monotonic => d.updateId > last
  }

  function ApplySeqDelta(b: Sourced, d: Delta, p: SeqPredicate): Outcome {
    if d.isSnapshot then Accept(b, d.levels, true, d.updateId)
    else if b.last.None? || !Continuous(p, b.last.value, d) then Gap(b)
    else Accept(b, d.levels, false, d.updateId)
  }

  /** The working state of one L3 frame. */
  datatype L3State = L3State(orders: map<OrderId, Pos>, totals: map<Key, real>, touched: seq<Key>)

  function Touch(touched: seq<Key>, k: Key): seq<Key> {
    if k in touched then touched else touched + [k]
  }

  function RemoveOrder(s: L3State, id: OrderId): L3State {
    if id !in s.orders then s
    else
      var Pos(k, size) := s.orders[id];
      var totals :=
        if k !in s.totals then s.totals
        else if s.totals[k] - size <= 0.0 then s.totals - {k}
        else s.totals[k := s.totals[k] - size];
      L3State(s.orders - {id}, totals, Touch(s.touched, k))
  }

  function ApplyOrder(s: L3State, o: L3Order): L3State {
    var s' := RemoveOrder(s, o.id);
    if o.removed || o.price.None? || o.size.None? || o.size.value <= 0.0 then s'
    else
      var k := Key(o.isAsk, o.price.value);
      L3State(
        s'.orders[o.id := Pos(k, o.size.value)],
        s'.totals[k := (if k in s'.totals then s'.totals[k] else 0.0) + o.size.value],
        Touch(s'.touched, k))
  }

  function ApplyOrders(s: L3State, os: seq<L3Order>): L3State {
    if os == [] then s else ApplyOrder(ApplyOrders(s, os[..|os| - 1]), os[|os| - 1])
  }

  /** The touched levels of one side, each with its current total. */
  function SideWrites(touched: seq<Key>, totals: map<Key, real>, isAsk: bool): seq<Text> {
    if touched == [] then []
    else
      var k := touched[|touched| - 1];
      SideWrites(touched[..|touched| - 1], totals, isAsk)
      + if k.isAsk == isAsk then [Parsed(Write(k, if k in totals then totals[k] else 0.0))] else []
  }

  function LevelWrites(s: L3State): seq<Text> {
    SideWrites(s.touched, s.totals, false) + SideWrites(s.touched, s.totals, true)
  }

  function L3Start(b: Sourced, d: Delta): L3State {
    if d.isSnapshot then L3State(map[], map[], []) else L3State(b.orders, b.totals, [])
  }

  function ApplyL3(b: Sourced, d: Delta): Outcome {
    var s := ApplyOrders(L3Start(b, d), d.orders);
    var b' := b.(orders := s.orders, totals := s.totals);
    if |s.orders| > L3_MAX_ORDERS then Gap(b') else Accept(b', LevelWrites(s), d.isSnapshot, d.updateId)
  }

  function ApplyModel(m: ReconstructionModel, b: Sourced, d: Delta): Outcome {
    match m
    case FullRefresh => Accept(b, d.levels, true, d.updateId)
    case SeqDelta(p, _) => ApplySeqDelta(b, d, p)
    case L3(_) => ApplyL3(b, d)
  }

  /** The source-agnostic `apply`: a book found crossed after a frame is gapped. */
  function ApplyDelta(m: ReconstructionModel, b: Sourced, d: Delta): Outcome {
    var r := ApplyModel(m, b, d);
    if r.out != ResyncNeeded && Crossed(r.book.levels) then Gap(r.book) else r
  }

  function ForceGapped(b: Sourced): Sourced {
    b.(state := Gapped, last := None, levels := map[], orders := map[], totals := map[])
  }

  // ---------------------------------------------------------------------------
  // The object
  // ---------------------------------------------------------------------------

  class SourcedOrderbook {
    const book: OrderbookDelta
    const model: ReconstructionModel
    var state: OrderBookState
    var last: Option<nat>
    var l3Orders: map<OrderId, Pos>
    var l3Levels: map<Key, real>

    ghost function View(): Sourced
      reads this, book
    {
      Sourced(book.levels, book.initialized, last, state, l3Orders, l3Levels)
    }

    constructor (model: ReconstructionModel)
      ensures this.model == model && View() == FRESH && fresh(book)
    {
      book := new OrderbookDelta();
      this.model := model;
      state, last := Empty, None;
      l3Orders, l3Levels := map[], map[];
    }

    method Apply(d: Delta) returns (out: BookOutput)
      modifies this, book
      ensures Outcome(View(), out) == ApplyDelta(model, old(View()), d)
    {
      match model {
        case FullRefresh => out := AcceptFrame(d.levels, true, d.updateId);
        case SeqDelta(p, _) => out := ApplySeq(d, p);
        case L3(_) => out := ApplyPerOrder(d);
      }
      if out != ResyncNeeded {
        var crossed := book.IsCrossed();
        if crossed {
          state, out := Gapped, ResyncNeeded;
        }
      }
    }

    method AcceptFrame(texts: seq<Text>, isSnapshot: bool, updateId: nat) returns (out: BookOutput)
      modifies this`state, this`last, book
      ensures Outcome(View(), out) == Accept(old(View()), texts, isSnapshot, updateId)
    {
      var ok := book.Process(texts, isSnapshot);
      if !ok {
        state := Gapped;
        return ResyncNeeded;
      }
      last, state := Some(updateId), Synced;
      out := if isSnapshot then Snapshot else Applied;
    }

    method ApplySeq(d: Delta, p: SeqPredicate) returns (out: BookOutput)
      modifies this`state, this`last, book
      ensures Outcome(View(), out) == ApplySeqDelta(old(View()), d, p)
    {
      if !d.isSnapshot && (last.None? || !Continuous(p, last.value, d)) {
        state := Gapped;
        return ResyncNeeded;
      }
      out := AcceptFrame(d.levels, d.isSnapshot, d.updateId);
    }

    method ApplyPerOrder(d: Delta) returns (out: BookOutput)
      modifies this, book
      ensures Outcome(View(), out) == ApplyL3(old(View()), d)
    {
      ghost var start := L3Start(View(), d);
      if d.isSnapshot {
        l3Orders, l3Levels := map[], map[];
      }
      var touched: seq<Key> := [];
      for i := 0 to |d.orders|
        invariant L3State(l3Orders, l3Levels, touched) == ApplyOrders(start, d.orders[..i])
        invariant unchanged(this`state, this`last, book)
      {
        assert d.orders[..i + 1][..i] == d.orders[..i];
        var next := ApplyOrder(L3State(l3Orders, l3Levels, touched), d.orders[i]);
        l3Orders, l3Levels, touched := next.orders, next.totals, next.touched;
      }
      assert d.orders[..|d.orders|] == d.orders;
      if |l3Orders| > L3_MAX_ORDERS {
        state := Gapped;
        return ResyncNeeded;
      }
      out := AcceptFrame(LevelWrites(L3State(l3Orders, l3Levels, touched)), d.isSnapshot, d.updateId);
    }

    method ForceGap()
      modifies this, book
      ensures View() == ForceGapped(old(View()))
    {
      state, last := Gapped, None;
      book.levels := map[];
      l3Orders, l3Levels := map[], map[];
    }
  }
}
