/**
 The grid synchronizer of aetelier-connect/src/synchronizers/market_sync.rs.

 Time is cut into periods of `period` microseconds; the row labelled p closes the period before
 p * period. Some feed drives the clock; each crossing emits the rows that became ripe, each with
 the events whose own timestamps fall in it and the last book strictly before its boundary.

 The five event vectors of the source are one sequence here, each event tagged with its kind: the
 source drains the five with five independent loops that differ only in the settlement rule.
 */
module MarketSync {
  import opened Wrappers

  type Symbol = string

  datatype ClockMode = OrderbookDriven | TradeDriven | LiquidationDriven | ExternalClock

  datatype Kind = Trade | Liquidation | FundingRate | OpenInterest | FundingSettlement

  /** `ts` is the timestamp the event is placed by. */
  datatype Event = Event(kind: Kind, ts: nat, tag: int)

  datatype Orderbook = Orderbook(ts: nat, tag: int)

  type BookHistory = map<nat, Orderbook>

  datatype MarketSnapshot = MarketSnapshot(ts: nat, orderbook: Option<Orderbook>, events: seq<Event>)

  const MAX_GAP_FILL: nat := 10_000
  const U64_MAX: nat := 0xFFFF_FFFF_FFFF_FFFF

  /**
   `order` is the iteration order of the hash maps, which the language leaves open: any way of
   listing a set of symbols.
   */
  datatype Config = Config(period: nat, delay: nat, mode: ClockMode, order: set<Symbol> -> seq<Symbol>)

  ghost predicate Lawful(cfg: Config) {
    && cfg.period > 0
    && forall ks: set<Symbol> :: multiset(cfg.order(ks)) == multiset(ks)
  }

  datatype State = State(
    lastPeriod: map<Symbol, nat>,
    clockPeriod: Option<nat>,
    books: map<Symbol, BookHistory>,
    pending: seq<Event>,
    buffer: seq<MarketSnapshot>,
    totalCaptured: nat,
    lateDropped: nat,
    finalized: bool)

  const FRESH := State(map[], None, map[], [], [], 0, 0, false)

  datatype Op =
    | OnTime(ts: nat)
    | OnBook(symbol: Symbol, ts: nat, book: Orderbook)
    | OnEvent(event: Event)
    | Finalize
    | Drain

  /** A row as it left: whose clock made it, its number, whether `finalize` did, and what it carried. */
  datatype Row = Row(symbol: Option<Symbol>, number: nat, terminal: bool, snapshot: MarketSnapshot)

  /** One call: the new state, the rows it pushed, the events it dropped as late, whether a gap was capped. */
  datatype Effect = Effect(state: State, rows: seq<Row>, late: seq<Event>, capped: bool)

  // ---------------------------------------------------------------------------
  // Book history
  // ---------------------------------------------------------------------------

  /** The greatest recorded period below the bound. */
  function LastBelow(m: BookHistory, bound: nat): (k: Option<nat>)
    ensures k.Some? ==> k.value in m && k.value < bound
    ensures forall j | j in m && j < bound :: k.Some? && j <= k.value
  {
    if bound == 0 then None else if bound - 1 in m then Some(bound - 1) else LastBelow(m, bound - 1)
  }

  function AsOf(m: BookHistory, row: nat): Option<Orderbook> {
    var k := LastBelow(m, row);
    if k.Some? then Some(m[k.value]) else None
  }

  function AsOfBook(books: map<Symbol, BookHistory>, symbol: Symbol, row: nat): Option<Orderbook> {
    if symbol in books then AsOf(books[symbol], row) else None
  }

  /** The global-clock variant: whichever symbol the map lists first. */
  function AsOfAny(cfg: Config, books: map<Symbol, BookHistory>, row: nat): Option<Orderbook> {
    var symbols := cfg.order(books.Keys);
    if symbols == [] then None else AsOfBook(books, symbols[0], row)
  }

  /** Drop history below the entry the last emitted row read. */
  function Prune(m: BookHistory, lastRow: nat): BookHistory {
    var keep := LastBelow(m, lastRow);
    if keep.None? then m else map k | k in m && k >= keep.value :: m[k]
  }

  function PruneAll(books: map<Symbol, BookHistory>, lastRow: nat): map<Symbol, BookHistory> {
    map s | s in books :: Prune(books[s], lastRow)
  }

  function Recorded(books: map<Symbol, BookHistory>, symbol: Symbol, k: nat, book: Orderbook)
    : map<Symbol, BookHistory>
  {
    books[symbol := (if symbol in books then books[symbol] else map[])[k := book]]
  }

  function RecordBook(cfg: Config, s: State, symbol: Symbol, ts: nat, book: Orderbook): State
    requires cfg.period > 0
  {
    s.(books := Recorded(s.books, symbol, ts / cfg.period, book))
  }

  // ---------------------------------------------------------------------------
  // Draining
  // ---------------------------------------------------------------------------

  datatype Dest = Late | ToRow(p: nat) | Keep

  /** Where an event goes when the rows in (prev, last] are emitted. */
  function Route(period: nat, prev: nat, last: nat, e: Event): Dest
    requires period > 0
  {
    var own := e.ts / period + 1;
    if e.kind.FundingSettlement? then
      var row := if own > prev + 1 then own else prev + 1;
      if row <= last then ToRow(row) else Keep
    else if own <= prev then Late
    else if own <= last then ToRow(own)
    else Keep
  }

  /** The events routed to one destination, in arrival order. */
  function Routed(period: nat, prev: nat, last: nat, es: seq<Event>, d: Dest): seq<Event>
    requires period > 0
  {
    if es == [] then []
    else
      var e := es[|es| - 1];
      Routed(period, prev, last, es[..|es| - 1], d) + if Route(period, prev, last, e) == d then [e] else []
  }

  lemma RoutedStep(period: nat, prev: nat, last: nat, es: seq<Event>, i: nat, d: Dest)
    requires period > 0 && i < |es|
    ensures Routed(period, prev, last, es[..i + 1], d)
            == Routed(period, prev, last, es[..i], d) + if Route(period, prev, last, es[i]) == d then [es[i]] else []
  {
    assert es[..i + 1][..i] == es[..i];
  }

  function Bundle(byPeriod: map<nat, seq<Event>>, p: nat): seq<Event> {
    if p in byPeriod then byPeriod[p] else []
  }

  // ---------------------------------------------------------------------------
  // The clock
  // ---------------------------------------------------------------------------

  /** The period a driving timestamp has made ripe: the hold-back window shifts only this. */
  function Ripe(cfg: Config, ts: nat): nat
    requires cfg.period > 0
  {
    (if ts >= cfg.delay then ts - cfg.delay else 0) / cfg.period
  }

  function RowBook(
    cfg: Config, books: map<Symbol, BookHistory>, symbol: Option<Symbol>, row: nat): Option<Orderbook>
  {
    if symbol.Some? then AsOfBook(books, symbol.value, row) else AsOfAny(cfg, books, row)
  }

  function RowSnapshot(
    cfg: Config, books: map<Symbol, BookHistory>, symbol: Option<Symbol>, events: seq<Event>, p: nat): MarketSnapshot
  {
    MarketSnapshot(p * cfg.period, RowBook(cfg, books, symbol, p), events)
  }

  function MakeRow(cfg: Config, s: State, symbol: Option<Symbol>, prev: nat, last: nat, p: nat): Row
    requires cfg.period > 0
  {
    Row(symbol, p, false, RowSnapshot(cfg, s.books, symbol, Routed(cfg.period, prev, last, s.pending, ToRow(p)), p))
  }

  /** Rows prev + 1 up to `upTo` of a crossing that emits up to `last`. */
  function MakeRows(cfg: Config, s: State, symbol: Option<Symbol>, prev: nat, last: nat, upTo: nat): seq<Row>
    requires cfg.period > 0
  {
    if upTo <= prev then []
    else MakeRows(cfg, s, symbol, prev, last, upTo - 1) + [MakeRow(cfg, s, symbol, prev, last, upTo)]
  }

  function Snapshots(rows: seq<Row>): seq<MarketSnapshot> {
    if rows == [] then [] else Snapshots(rows[..|rows| - 1]) + [rows[|rows| - 1].snapshot]
  }

  ghost function RowMaker(
    cfg: Config, s: State, symbol: Option<Symbol>, prev: nat, last: nat): nat -> MarketSnapshot
    requires cfg.period > 0
  {
    (p: nat) => MakeRow(cfg, s, symbol, prev, last, p).snapshot
  }

  /** The snapshots of rows prev + 1 up to `upTo`. */
  ghost function Made(make: nat -> MarketSnapshot, prev: nat, upTo: nat): seq<MarketSnapshot> {
    if upTo <= prev then [] else Made(make, prev, upTo - 1) + [make(upTo)]
  }

  lemma {:induction false} RowsAreMade(
    cfg: Config, s: State, symbol: Option<Symbol>, prev: nat, last: nat, upTo: nat)
    requires cfg.period > 0
    ensures Snapshots(MakeRows(cfg, s, symbol, prev, last, upTo))
            == Made(RowMaker(cfg, s, symbol, prev, last), prev, upTo)
  {
    if upTo > prev {
      RowsAreMade(cfg, s, symbol, prev, last, upTo - 1);
      var rows := MakeRows(cfg, s, symbol, prev, last, upTo);
      assert rows[..|rows| - 1] == MakeRows(cfg, s, symbol, prev, last, upTo - 1);
    }
  }

  lemma {:induction false} RowCount(cfg: Config, s: State, symbol: Option<Symbol>, prev: nat, last: nat, upTo: nat)
    requires cfg.period > 0 && prev <= upTo
    ensures |MakeRows(cfg, s, symbol, prev, last, upTo)| == upTo - prev
  {
    if prev < upTo {
      RowCount(cfg, s, symbol, prev, last, upTo - 1);
    }
  }

  function FillCount(prev: nat, current: nat): nat
    requires prev < current
  {
    if current - prev > MAX_GAP_FILL then MAX_GAP_FILL else current - prev
  }

  /** Emit the rows a clock move from prev to current has closed. */
  function Cross(cfg: Config, s: State, symbol: Option<Symbol>, prev: nat, current: nat): Effect
    requires cfg.period > 0 && prev < current
  {
    var last := prev + FillCount(prev, current);
    var rows := MakeRows(cfg, s, symbol, prev, last, last);
    var late := Routed(cfg.period, prev, last, s.pending, Late);
    Effect(
      s.(pending := Routed(cfg.period, prev, last, s.pending, Keep),
         buffer := s.buffer + Snapshots(rows),
         books := PruneAll(s.books, last),
         totalCaptured := s.totalCaptured + FillCount(prev, current),
         lateDropped := s.lateDropped + |late|),
      rows,
      late,
      current - prev > MAX_GAP_FILL)
  }

  /** A state with these fields is the one a crossing leaves. */
  lemma IsCross(cfg: Config, s: State, symbol: Option<Symbol>, prev: nat, current: nat, last: nat, s': State)
    requires cfg.period > 0 && prev < current && last == prev + FillCount(prev, current)
    requires s'.pending == Routed(cfg.period, prev, last, s.pending, Keep)
    requires s'.buffer == s.buffer + Snapshots(MakeRows(cfg, s, symbol, prev, last, last))
    requires s'.books == PruneAll(s.books, last) && s'.totalCaptured == s.totalCaptured + (last - prev)
    requires s'.lateDropped == s.lateDropped + |Routed(cfg.period, prev, last, s.pending, Late)|
    requires s'.lastPeriod == s.lastPeriod && s'.clockPeriod == s.clockPeriod && s'.finalized == s.finalized
    ensures s' == Cross(cfg, s, symbol, prev, current).state
    ensures Cross(cfg, s, symbol, prev, current).rows == MakeRows(cfg, s, symbol, prev, last, last)
  {}

  function Quiet(s: State): Effect {
    Effect(s, [], [], false)
  }

  /** `advance_grid`: the global clock. */
  function AdvanceGrid(cfg: Config, s: State, ts: nat): Effect
    requires cfg.period > 0
  {
    var current := Ripe(cfg, ts);
    if s.clockPeriod.None? then Quiet(s.(clockPeriod := Some(current)))
    else if current <= s.clockPeriod.value then Quiet(s)
    else
      var e := Cross(cfg, s, None, s.clockPeriod.value, current);
      e.(state := e.state.(clockPeriod := Some(current)))
  }

  function FeedBook(cfg: Config, s: State, symbol: Symbol, ts: nat, book: Orderbook): Effect
    requires cfg.period > 0
  {
    if !cfg.mode.OrderbookDriven? then Quiet(RecordBook(cfg, s, symbol, ts, book))
    else
      var current := Ripe(cfg, ts);
      if symbol !in s.lastPeriod then
        Quiet(RecordBook(cfg, s.(lastPeriod := s.lastPeriod[symbol := current]), symbol, ts, book))
      else if current <= s.lastPeriod[symbol] then Quiet(RecordBook(cfg, s, symbol, ts, book))
      else
        var e := Cross(cfg, s, Some(symbol), s.lastPeriod[symbol], current);
        var s' := e.state.(lastPeriod := s.lastPeriod[symbol := current]);
        e.(state := RecordBook(cfg, s', symbol, ts, book))
  }

  predicate Drives(mode: ClockMode, kind: Kind) {
    (mode.TradeDriven? && kind.Trade?) || (mode.LiquidationDriven? && kind.Liquidation?)
  }

  function FeedEvent(cfg: Config, s: State, e: Event): Effect
    requires cfg.period > 0
  {
    var s' := s.(pending := s.pending + [e]);
    if Drives(cfg.mode, e.kind) then AdvanceGrid(cfg, s', e.ts) else Quiet(s')
  }

  function TerminalSnapshot(cfg: Config, s: State, x: Symbol): MarketSnapshot
    requires x in s.lastPeriod
  {
    MarketSnapshot((s.lastPeriod[x] + 1) * cfg.period, AsOfBook(s.books, x, U64_MAX), s.pending)
  }

  function TerminalRow(cfg: Config, s: State, x: Symbol): Row
    requires x in s.lastPeriod
  {
    Row(Some(x), s.lastPeriod[x] + 1, true, TerminalSnapshot(cfg, s, x))
  }

  /** One terminal row per listed symbol, each carrying everything that is left. */
  function TerminalRows(cfg: Config, s: State, symbols: seq<Symbol>): seq<Row>
    requires cfg.period > 0 && forall x | x in symbols :: x in s.lastPeriod
  {
    if symbols == [] then []
    else
      var x := symbols[|symbols| - 1];
      TerminalRows(cfg, s, symbols[..|symbols| - 1]) + [TerminalRow(cfg, s, x)]
  }

  lemma TerminalStep(cfg: Config, s: State, symbols: seq<Symbol>, i: nat)
    requires cfg.period > 0 && (forall x | x in symbols :: x in s.lastPeriod) && i < |symbols|
    ensures var rows, rows' := TerminalRows(cfg, s, symbols[..i]), TerminalRows(cfg, s, symbols[..i + 1]);
            |rows'| == |rows| + 1 && Snapshots(rows') == Snapshots(rows) + [TerminalSnapshot(cfg, s, symbols[i])]
  {
    assert symbols[..i + 1][..i] == symbols[..i];
    var rows := TerminalRows(cfg, s, symbols[..i + 1]);
    assert rows[..|rows| - 1] == TerminalRows(cfg, s, symbols[..i]);
  }

  function FinalizeOrderbookDriven(cfg: Config, s: State): Effect
    requires cfg.period > 0 && forall x | x in cfg.order(s.lastPeriod.Keys) :: x in s.lastPeriod
  {
    var rows := TerminalRows(cfg, s, cfg.order(s.lastPeriod.Keys));
    Effect(
      s.(finalized := true, pending := [], buffer := s.buffer + Snapshots(rows),
         totalCaptured := s.totalCaptured + |rows|),
      rows, [], false)
  }

  function FinalizeGlobalClock(cfg: Config, s: State): Effect
    requires cfg.period > 0
  {
    if s.clockPeriod.None? then Quiet(s.(finalized := true))
    else
      var number := s.clockPeriod.value + 1;
      var snapshot := MarketSnapshot(number * cfg.period, AsOfAny(cfg, s.books, U64_MAX), s.pending);
      var row := Row(None, number, true, snapshot);
      Effect(
        s.(finalized := true, pending := [], buffer := s.buffer + [row.snapshot], totalCaptured := s.totalCaptured + 1),
        [row], [], false)
  }

  predicate Lists(cfg: Config, s: State) {
    forall x | x in cfg.order(s.lastPeriod.Keys) :: x in s.lastPeriod
  }

  function Turn(cfg: Config, s: State, op: Op): Effect
    requires cfg.period > 0 && Lists(cfg, s)
  {
    if s.finalized then
      match op
      case Finalize => Quiet(s)
      case Drain => Quiet(s.(buffer := []))
      case _ => Quiet(s.(lateDropped := s.lateDropped + 1))
    else
      match op
      case OnTime(ts) => if cfg.mode.ExternalClock? then AdvanceGrid(cfg, s, ts) else Quiet(s)
      case OnBook(symbol, ts, book) => FeedBook(cfg, s, symbol, ts, book)
      case OnEvent(e) => FeedEvent(cfg, s, e)
      case Finalize =>
        if cfg.mode.OrderbookDriven? then FinalizeOrderbookDriven(cfg, s) else FinalizeGlobalClock(cfg, s)
      case Drain => Quiet(s.(buffer := []))
  }

  // ---------------------------------------------------------------------------
  // The object
  // ---------------------------------------------------------------------------

  class MarketSynchronizer {
    const cfg: Config
    var lastPeriod: map<Symbol, nat>
    var clockPeriod: Option<nat>
    var books: map<Symbol, BookHistory>
    var pending: seq<Event>
    var buffer: seq<MarketSnapshot>
    var totalCaptured: nat
    var lateDropped: nat
    var finalized: bool

    function View(): State
      reads this
    {
      State(lastPeriod, clockPeriod, books, pending, buffer, totalCaptured, lateDropped, finalized)
    }

    constructor (cfg: Config)
      requires cfg.period > 0
      ensures this.cfg == cfg && View() == FRESH
    {
      this.cfg := cfg;
      lastPeriod, clockPeriod, books := map[], None, map[];
      pending, buffer := [], [];
      totalCaptured, lateDropped, finalized := 0, 0, false;
    }

    /** `drain_events`: partition the pending events by the row they belong to. */
    method DrainEvents(prev: nat, last: nat) returns (byPeriod: map<nat, seq<Event>>, ghost late: seq<Event>)
      requires cfg.period > 0
      modifies `pending, `lateDropped
      ensures pending == Routed(cfg.period, prev, last, old(pending), Keep)
      ensures late == Routed(cfg.period, prev, last, old(pending), Late)
      ensures lateDropped == old(lateDropped) + |late|
      ensures forall p: nat :: Bundle(byPeriod, p) == Routed(cfg.period, prev, last, old(pending), ToRow(p))
    {
      var taken := pending;
      pending, byPeriod, late := [], map[], [];
      for i := 0 to |taken|
        invariant pending == Routed(cfg.period, prev, last, taken[..i], Keep)
        invariant late == Routed(cfg.period, prev, last, taken[..i], Late)
        invariant lateDropped == old(lateDropped) + |late|
        invariant forall p: nat :: Bundle(byPeriod, p) == Routed(cfg.period, prev, last, taken[..i], ToRow(p))
      {
        var e, was := taken[i], byPeriod;
        RoutedStep(cfg.period, prev, last, taken, i, Keep);
        RoutedStep(cfg.period, prev, last, taken, i, Late);
        match Route(cfg.period, prev, last, e) {
          case Late =>
            late := late + [e];
            lateDropped := lateDropped + 1;
          case ToRow(p) => byPeriod := byPeriod[p := Bundle(byPeriod, p) + [e]];
          case Keep => pending := pending + [e];
        }
        forall p: nat
          ensures Bundle(byPeriod, p) == Routed(cfg.period, prev, last, taken[..i + 1], ToRow(p))
        {
          RoutedStep(cfg.period, prev, last, taken, i, ToRow(p));
          assert Bundle(was, p) == Routed(cfg.period, prev, last, taken[..i], ToRow(p));
        }
      }
      assert taken[..|taken|] == taken;
    }

    /** Emit every row of a crossing, then prune. */
    method EmitRows(symbol: Option<Symbol>, prev: nat, current: nat) returns (count: nat)
      requires cfg.period > 0 && prev < current
      modifies `pending, `lateDropped, `buffer, `books, `totalCaptured
      ensures View() == Cross(cfg, old(View()), symbol, prev, current).state
      ensures count == |Cross(cfg, old(View()), symbol, prev, current).rows|
    {
      ghost var s := View();
      count := if current - prev > MAX_GAP_FILL then MAX_GAP_FILL else current - prev;
      var last := prev + count;
      ghost var late := DrainAndPush(symbol, prev, last);
      books := PruneAll(books, last);
      totalCaptured := totalCaptured + count;
      RowCount(cfg, s, symbol, prev, last, last);
      IsCross(cfg, s, symbol, prev, current, last, View());
    }

    method DrainAndPush(symbol: Option<Symbol>, prev: nat, last: nat) returns (ghost late: seq<Event>)
      requires cfg.period > 0 && prev <= last
      modifies `pending, `lateDropped, `buffer
      ensures pending == Routed(cfg.period, prev, last, old(pending), Keep)
      ensures late == Routed(cfg.period, prev, last, old(pending), Late)
      ensures lateDropped == old(lateDropped) + |late|
      ensures buffer == old(buffer) + Snapshots(MakeRows(cfg, old(View()), symbol, prev, last, last))
    {
      ghost var s := View();
      var byPeriod;
      byPeriod, late := DrainEvents(prev, last);
      RowsAreMade(cfg, s, symbol, prev, last, last);
      PushRows(RowMaker(cfg, s, symbol, prev, last), symbol, prev, last, byPeriod);
    }

    method PushRows(
      ghost make: nat -> MarketSnapshot, symbol: Option<Symbol>, prev: nat, last: nat, byPeriod: map<nat, seq<Event>>)
      requires prev <= last
      requires forall p: nat :: make(p) == RowSnapshot(cfg, books, symbol, Bundle(byPeriod, p), p)
      modifies `buffer
      ensures buffer == old(buffer) + Made(make, prev, last)
    {
      ghost var pushed := [];
      for p := prev to last
        invariant pushed == Made(make, prev, p) && buffer == old(buffer) + pushed
      {
        var snapshot := BuildRow(symbol, p + 1, Bundle(byPeriod, p + 1));
        assert snapshot == make(p + 1);
        buffer := buffer + [snapshot];
        pushed := pushed + [snapshot];
      }
    }

    method BuildRow(symbol: Option<Symbol>, p: nat, events: seq<Event>) returns (snapshot: MarketSnapshot)
      ensures snapshot == RowSnapshot(cfg, books, symbol, events, p)
    {
      var book := if symbol.Some? then AsOfBook(books, symbol.value, p) else AsOfAny(cfg, books, p);
      snapshot := MarketSnapshot(p * cfg.period, book, events);
    }

    method Advance(ts: nat) returns (count: nat)
      requires cfg.period > 0
      modifies this
      ensures View() == AdvanceGrid(cfg, old(View()), ts).state
      ensures count == |AdvanceGrid(cfg, old(View()), ts).rows|
    {
      var current := Ripe(cfg, ts);
      if clockPeriod.None? {
        clockPeriod := Some(current);
        return 0;
      }
      if current <= clockPeriod.value {
        return 0;
      }
      count := EmitRows(None, clockPeriod.value, current);
      clockPeriod := Some(current);
    }

    method Record(symbol: Symbol, ts: nat, book: Orderbook)
      requires cfg.period > 0
      modifies `books
      ensures View() == RecordBook(cfg, old(View()), symbol, ts, book)
    {
      var m := if symbol in books then books[symbol] else map[];
      books := books[symbol := m[ts / cfg.period := book]];
    }

    method OnTime(ts: nat) returns (count: nat)
      requires cfg.period > 0 && Lists(cfg, View())
      modifies this
      ensures View() == Turn(cfg, old(View()), Op.OnTime(ts)).state
      ensures count == |Turn(cfg, old(View()), Op.OnTime(ts)).rows|
    {
      count := 0;
      if finalized {
        lateDropped := lateDropped + 1;
      } else if cfg.mode.ExternalClock? {
        count := Advance(ts);
      }
    }

    method OnOrderbook(symbol: Symbol, ts: nat, book: Orderbook) returns (count: nat)
      requires cfg.period > 0 && Lists(cfg, View())
      modifies this
      ensures View() == Turn(cfg, old(View()), OnBook(symbol, ts, book)).state
      ensures count == |Turn(cfg, old(View()), OnBook(symbol, ts, book)).rows|
    {
      count := 0;
      if finalized {
        lateDropped := lateDropped + 1;
        return;
      }
      if cfg.mode.OrderbookDriven? {
        var current := Ripe(cfg, ts);
        if symbol !in lastPeriod {
          lastPeriod := lastPeriod[symbol := current];
        } else if current > lastPeriod[symbol] {
          count := EmitRows(Some(symbol), lastPeriod[symbol], current);
          lastPeriod := lastPeriod[symbol := current];
        }
      }
      Record(symbol, ts, book);
    }

    /** `on_trade`, `on_liquidation`, `on_funding`, `on_open_interest`, `on_funding_settlement`. */
    method OnEvent(e: Event) returns (count: nat)
      requires cfg.period > 0 && Lists(cfg, View())
      modifies this
      ensures View() == Turn(cfg, old(View()), Op.OnEvent(e)).state
      ensures count == |Turn(cfg, old(View()), Op.OnEvent(e)).rows|
    {
      count := 0;
      if finalized {
        lateDropped := lateDropped + 1;
        return;
      }
      pending := pending + [e];
      if Drives(cfg.mode, e.kind) {
        count := Advance(e.ts);
      }
    }

    method Finalize()
      requires cfg.period > 0 && Lists(cfg, View())
      modifies this
      ensures View() == Turn(cfg, old(View()), Op.Finalize).state
    {
      if finalized {
        return;
      }
      if cfg.mode.OrderbookDriven? {
        FinishPerSymbol();
        return;
      }
      finalized := true;
      if clockPeriod.Some? {
        var number := clockPeriod.value + 1;
        buffer := buffer + [MarketSnapshot(number * cfg.period, AsOfAny(cfg, books, U64_MAX), pending)];
        pending, totalCaptured := [], totalCaptured + 1;
      }
    }

    method FinishPerSymbol()
      requires cfg.period > 0 && Lists(cfg, View())
      modifies `finalized, `pending, `buffer, `totalCaptured
      ensures View() == FinalizeOrderbookDriven(cfg, old(View())).state
    {
      ghost var s := View();
      var symbols := cfg.order(lastPeriod.Keys);
      var taken := pending;
      finalized, pending := true, [];
      PushTerminals(s, symbols, taken);
    }

    method PushTerminals(ghost s: State, symbols: seq<Symbol>, taken: seq<Event>)
      requires cfg.period > 0 && (forall x | x in symbols :: x in lastPeriod)
      requires lastPeriod == s.lastPeriod && books == s.books && taken == s.pending
      modifies `buffer, `totalCaptured
      ensures buffer == old(buffer) + Snapshots(TerminalRows(cfg, s, symbols))
      ensures totalCaptured == old(totalCaptured) + |TerminalRows(cfg, s, symbols)|
    {
      ghost var rows: seq<Row> := [];
      ghost var pushed: seq<MarketSnapshot> := [];
      for i := 0 to |symbols|
        invariant rows == TerminalRows(cfg, s, symbols[..i]) && pushed == Snapshots(rows)
        invariant buffer == old(buffer) + pushed && totalCaptured == old(totalCaptured) + |rows|
      {
        TerminalStep(cfg, s, symbols, i);
        var snapshot := BuildTerminal(s, symbols[i], taken);
        buffer := buffer + [snapshot];
        totalCaptured := totalCaptured + 1;
        rows, pushed := TerminalRows(cfg, s, symbols[..i + 1]), pushed + [snapshot];
      }
      assert symbols[..|symbols|] == symbols;
    }

    method BuildTerminal(ghost s: State, x: Symbol, taken: seq<Event>) returns (snapshot: MarketSnapshot)
      requires x in lastPeriod && lastPeriod == s.lastPeriod && books == s.books && taken == s.pending
      ensures snapshot == TerminalSnapshot(cfg, s, x)
    {
      var number := lastPeriod[x] + 1;
      snapshot := MarketSnapshot(number * cfg.period, AsOfBook(books, x, U64_MAX), taken);
    }

    method DrainBuffer() returns (out: seq<MarketSnapshot>)
      requires cfg.period > 0 && Lists(cfg, View())
      modifies this
      ensures out == old(buffer)
      ensures View() == Turn(cfg, old(View()), Drain).state
    {
      out := buffer;
      buffer := [];
    }
  }
}
