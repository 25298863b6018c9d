/**
 The grid of one clock: row numbers, membership, the hold-back window, and the pruned book history
 against the one nobody prunes.

 One clock means a global-clock mode, or the book-driven mode with a single tracked symbol.
 */
module MarketSyncGrid {
  import opened Wrappers
  import opened MarketSync
  import opened MarketSyncTrace

  ghost predicate OneClock(cfg: Config, symbol: Symbol, op: Op) {
    cfg.mode.OrderbookDriven? && op.OnBook? ==> op.symbol == symbol
  }

  /** The clock that drives the run. */
  ghost function Clock(cfg: Config, symbol: Symbol, s: State): Option<nat> {
    if !cfg.mode.OrderbookDriven? then s.clockPeriod
    else if symbol in s.lastPeriod then Some(s.lastPeriod[symbol])
    else None
  }

  /** The row an event's own timestamp names. */
  function OwnRow(cfg: Config, e: Event): nat
    requires cfg.period > 0
  {
    e.ts / cfg.period + 1
  }

  // ---------------------------------------------------------------------------
  // One call, seen from the grid
  // ---------------------------------------------------------------------------

  ghost predicate Numbered(rows: seq<Row>, from: nat) {
    forall i | 0 <= i < |rows| :: !rows[i].terminal && rows[i].number == from + i
  }

  /** How a call moves the clock from c to c' and which rows it pushes. */
  ghost predicate GridMove(cfg: Config, s: State, op: Op, e: Effect, c: Option<nat>, c': Option<nat>)
    requires cfg.period > 0
  {
    var ts := if s.finalized then None else DrivingTs(cfg, op);
    && (ts.None? ==> c' == c && !e.capped)
    && (ts.Some? && (c.None? || Ripe(cfg, ts.value) <= c.value) ==>
          e.rows == [] && !e.capped && c' == (if c.None? then Some(Ripe(cfg, ts.value)) else c))
    && (ts.Some? && c.Some? && c.value < Ripe(cfg, ts.value) ==>
          && c' == Some(Ripe(cfg, ts.value))
          && |e.rows| == FillCount(c.value, c'.value)
          && e.capped == (c'.value - c.value > MAX_GAP_FILL)
          && Numbered(e.rows, c.value + 1))
    && (ts.None? ==> if !s.finalized && op.Finalize? && c.Some?
                     then |e.rows| == 1 && e.rows[0].terminal && e.rows[0].number == c.value + 1
                     else e.rows == [])
    && e.state.finalized == (s.finalized || op.Finalize?)
  }

  lemma CrossNumbers(cfg: Config, s: State, x: Option<Symbol>, prev: nat, current: nat)
    requires cfg.period > 0 && prev < current
    ensures var e := Cross(cfg, s, x, prev, current);
            |e.rows| == FillCount(prev, current) && Numbered(e.rows, prev + 1)
  {
    var last := prev + FillCount(prev, current);
    RowAt(cfg, s, x, prev, last, last);
  }

  lemma AdvanceMove(cfg: Config, s: State, ts: nat)
    requires cfg.period > 0
    ensures var e := AdvanceGrid(cfg, s, ts); var c := s.clockPeriod; var c' := e.state.clockPeriod;
            && (c.None? || Ripe(cfg, ts) <= c.value ==>
                  e.rows == [] && !e.capped && c' == if c.None? then Some(Ripe(cfg, ts)) else c)
            && (c.Some? && c.value < Ripe(cfg, ts) ==>
                  && c' == Some(Ripe(cfg, ts))
                  && |e.rows| == FillCount(c.value, c'.value)
                  && e.capped == (c'.value - c.value > MAX_GAP_FILL)
                  && Numbered(e.rows, c.value + 1))
            && e.state.finalized == s.finalized && e.state.lastPeriod == s.lastPeriod
  {
    if s.clockPeriod.Some? && s.clockPeriod.value < Ripe(cfg, ts) {
      CrossNumbers(cfg, s, None, s.clockPeriod.value, Ripe(cfg, ts));
    }
  }

  lemma SoleOrder(cfg: Config, x: Symbol)
    requires Lawful(cfg)
    ensures cfg.order({x}) == [x] && cfg.order({}) == []
  {
    var one, none := cfg.order({x}), cfg.order({});
    assert multiset(one) == multiset({x}) == multiset{x};
    assert multiset(none) == multiset({}) == multiset{};
    assert |one| == |multiset(one)| == 1 && |none| == |multiset(none)| == 0;
    assert one[0] in multiset(one);
  }

  lemma FinalizeMove(cfg: Config, symbol: Symbol, s: State)
    requires Lawful(cfg) && Lists(cfg, s) && !s.finalized
    requires cfg.mode.OrderbookDriven? ==> s.lastPeriod.Keys <= {symbol}
    ensures GridMove(cfg, s, Finalize, Turn(cfg, s, Finalize), Clock(cfg, symbol, s), Clock(cfg, symbol, s))
    ensures Clock(cfg, symbol, Turn(cfg, s, Finalize).state) == Clock(cfg, symbol, s)
  {
    if cfg.mode.OrderbookDriven? {
      SoleOrder(cfg, symbol);
      assert s.lastPeriod.Keys == {symbol} || s.lastPeriod.Keys == {};
      if symbol in s.lastPeriod {
        assert s.lastPeriod.Keys == {symbol};
        assert [symbol][..0] == [];
        assert TerminalRows(cfg, s, []) == [];
        assert |TerminalRows(cfg, s, [symbol])| == 1;
      }
    }
  }

  lemma BookMove(cfg: Config, symbol: Symbol, s: State, ts: nat, book: Orderbook)
    requires cfg.period > 0 && Lists(cfg, s) && !s.finalized
    ensures var op := OnBook(symbol, ts, book); var e := Turn(cfg, s, op);
            && GridMove(cfg, s, op, e, Clock(cfg, symbol, s), Clock(cfg, symbol, e.state))
            && e.state.lastPeriod.Keys <= s.lastPeriod.Keys + {symbol}
  {
    if cfg.mode.OrderbookDriven? && symbol in s.lastPeriod && s.lastPeriod[symbol] < Ripe(cfg, ts) {
      CrossNumbers(cfg, s, Some(symbol), s.lastPeriod[symbol], Ripe(cfg, ts));
    }
  }

  lemma TurnMove(cfg: Config, symbol: Symbol, s: State, op: Op)
    requires Lawful(cfg) && Lists(cfg, s) && OneClock(cfg, symbol, op)
    requires cfg.mode.OrderbookDriven? ==> s.lastPeriod.Keys <= {symbol}
    ensures var e := Turn(cfg, s, op);
            && GridMove(cfg, s, op, e, Clock(cfg, symbol, s), Clock(cfg, symbol, e.state))
            && (cfg.mode.OrderbookDriven? ==> e.state.lastPeriod.Keys <= {symbol})
  {
    if !s.finalized {
      match op {
        case OnTime(ts) => AdvanceMove(cfg, s, ts);
        case OnBook(x, ts, book) =>
          if cfg.mode.OrderbookDriven? {
            BookMove(cfg, symbol, s, ts, book);
          }
        case OnEvent(x) => AdvanceMove(cfg, s.(pending := s.pending + [x]), x.ts);
        case Finalize => FinalizeMove(cfg, symbol, s);
        case Drain =>
      }
    }
  }

  // ---------------------------------------------------------------------------
  // Row numbers over whole runs
  // ---------------------------------------------------------------------------

  ghost function Numbers(rows: seq<Seen>): seq<nat> {
    seq(|rows|, i requires 0 <= i < |rows| => rows[i].row.number)
  }

  ghost predicate Increasing(ns: seq<nat>) {
    forall i, j | 0 <= i < j < |ns| :: ns[i] < ns[j]
  }

  ghost predicate Consecutive(ns: seq<nat>) {
    forall i | 0 <= i < |ns| :: ns[i] == ns[0] + i
  }

  ghost predicate GridOk(cfg: Config, t: Trace, c: Option<nat>)
    requires cfg.period > 0
  {
    var ns := Numbers(t.rows);
    && (c.Some? <==> t.driven.Some?)
    && (c.Some? ==> c.value == Ripe(cfg, t.driven.value))
    && Increasing(ns)
    && (!t.capped ==> Consecutive(ns))
    && (!t.state.finalized && ns != [] ==> c.Some? && forall n | n in ns :: n <= c.value)
    && (!t.state.finalized && ns != [] && !t.capped ==> ns[|ns| - 1] == c.value)
  }

  /** Rows numbered upwards from c + 1, put behind rows that end at or below c. */
  lemma AppendNumbers(ns: seq<nat>, ms: seq<nat>, c: nat)
    requires Increasing(ns) && (forall n | n in ns :: n <= c)
    requires forall i | 0 <= i < |ms| :: ms[i] == c + 1 + i
    ensures Increasing(ns + ms)
    ensures Consecutive(ns) && (ns == [] || ns[|ns| - 1] == c) ==> Consecutive(ns + ms)
  {
    var all := ns + ms;
    forall i, j | 0 <= i < j < |all|
      ensures all[i] < all[j]
    {
      if i < |ns| {
        assert ns[i] in ns;
      }
    }
  }

  lemma ProductGrows(d: nat, a: nat, b: nat)
    ensures a <= b ==> d * a <= d * b
  {
    if a <= b {
      assert d * b == d * a + d * (b - a);
    }
  }

  lemma QuotientGrows(x: nat, y: nat, d: nat)
    requires d > 0 && x <= y
    ensures x / d <= y / d
  {
    var q, r := x / d, y / d;
    assert x == d * q + x % d;
    assert y == d * r + y % d;
    assert d * (r + 1) == d * r + d;
    ProductGrows(d, r + 1, q);
  }

  lemma RipeGrows(cfg: Config, a: nat, b: nat)
    requires cfg.period > 0 && a <= b
    ensures Ripe(cfg, a) <= Ripe(cfg, b)
  {
    QuotientGrows(if a >= cfg.delay then a - cfg.delay else 0, if b >= cfg.delay then b - cfg.delay else 0, cfg.period);
  }

  lemma ExtendNumbers(cfg: Config, t: Trace, op: Op, e: Effect)
    requires cfg.period > 0
    ensures var ms := Numbers(Witnessed(e.rows, t.full));
            && Numbers(Extend(cfg, t, op, e).rows) == Numbers(t.rows) + ms
            && |ms| == |e.rows| && forall i | 0 <= i < |ms| :: ms[i] == e.rows[i].number
  {
    RowsOfWitnessed(e.rows, t.full);
  }

  lemma ExtendKeepsGrid(cfg: Config, t: Trace, op: Op, e: Effect, c: Option<nat>, c': Option<nat>)
    requires cfg.period > 0 && GridOk(cfg, t, c) && GridMove(cfg, t.state, op, e, c, c')
    ensures GridOk(cfg, Extend(cfg, t, op, e), c')
  {
    ClockFollows(cfg, t, op, e, c, c');
    ExtendNumbers(cfg, t, op, e);
    var ns, ms := Numbers(t.rows), Numbers(Witnessed(e.rows, t.full));
    if e.rows == [] {
      assert ns + ms == ns;
    } else {
      NewRows(t.state, op, e, ns, ms, c, c');
    }
  }

  lemma NewRows(s: State, op: Op, e: Effect, ns: seq<nat>, ms: seq<nat>, c: Option<nat>, c': Option<nat>)
    requires !s.finalized && c.Some? && c'.Some? && |ms| == |e.rows| > 0
    requires forall i | 0 <= i < |ms| :: ms[i] == c.value + 1 + i
    requires Increasing(ns) && (ns != [] ==> forall n | n in ns :: n <= c.value)
    requires op.Finalize? || (|ms| <= c'.value - c.value && (!e.capped ==> |ms| == c'.value - c.value))
    ensures Increasing(ns + ms)
    ensures Consecutive(ns) && (ns != [] ==> ns[|ns| - 1] == c.value) ==> Consecutive(ns + ms)
    ensures !op.Finalize? ==> forall n | n in ns + ms :: n <= c'.value
    ensures !op.Finalize? && !e.capped ==> (ns + ms)[|ns + ms| - 1] == c'.value
  {
    AppendNumbers(ns, ms, c.value);
    assert (ns + ms)[|ns + ms| - 1] == ms[|ms| - 1];
  }

  /** The clock is always the ripe period of the largest driving timestamp. */
  lemma ClockFollows(cfg: Config, t: Trace, op: Op, e: Effect, c: Option<nat>, c': Option<nat>)
    requires cfg.period > 0 && GridMove(cfg, t.state, op, e, c, c')
    requires (c.Some? <==> t.driven.Some?) && (c.Some? ==> c.value == Ripe(cfg, t.driven.value))
    ensures var d := Extend(cfg, t, op, e).driven;
            (c'.Some? <==> d.Some?) && (c'.Some? ==> c'.value == Ripe(cfg, d.value))
  {
    var ts := if t.state.finalized then None else DrivingTs(cfg, op);
    if ts.Some? && t.driven.Some? {
      if ts.value <= t.driven.value {
        RipeGrows(cfg, ts.value, t.driven.value);
      } else {
        RipeGrows(cfg, t.driven.value, ts.value);
      }
    }
  }

  lemma {:induction false} RunKeepsGrid(cfg: Config, symbol: Symbol, ops: seq<Op>)
    requires Lawful(cfg) && forall op | op in ops :: OneClock(cfg, symbol, op)
    ensures var t := Run(cfg, ops);
            && GridOk(cfg, t, Clock(cfg, symbol, t.state))
            && (cfg.mode.OrderbookDriven? ==> t.state.lastPeriod.Keys <= {symbol})
  {
    if ops != [] {
      var init, op := ops[..|ops| - 1], ops[|ops| - 1];
      RunKeepsGrid(cfg, symbol, init);
      var t := Run(cfg, init);
      LawfulLists(cfg, t.state);
      TurnMove(cfg, symbol, t.state, op);
      var e := Turn(cfg, t.state, op);
      ExtendKeepsGrid(cfg, t, op, e, Clock(cfg, symbol, t.state), Clock(cfg, symbol, e.state));
    }
  }

  // ---------------------------------------------------------------------------
  // Membership
  // ---------------------------------------------------------------------------

  /** A row's own timestamp and the timestamps it may carry. */
  ghost predicate OwnEvents(cfg: Config, r: Row) {
    !r.terminal ==>
      && r.number > 0 && r.snapshot.ts == r.number * cfg.period
      && forall e | e in r.snapshot.events && !e.kind.FundingSettlement? ::
           (r.number - 1) * cfg.period <= e.ts < r.number * cfg.period
  }

  lemma InPeriod(ts: nat, period: nat, p: nat)
    requires period > 0 && ts / period + 1 == p
    ensures (p - 1) * period <= ts < p * period
  {
    assert ts == period * (ts / period) + ts % period;
    assert p * period == (p - 1) * period + period;
  }

  lemma CrossMembers(cfg: Config, s: State, x: Option<Symbol>, prev: nat, current: nat)
    requires cfg.period > 0 && prev < current
    ensures forall r | r in Cross(cfg, s, x, prev, current).rows :: OwnEvents(cfg, r)
  {
    var last := prev + FillCount(prev, current);
    RowAt(cfg, s, x, prev, last, last);
    var rows := MakeRows(cfg, s, x, prev, last, last);
    forall i | 0 <= i < |rows|
      ensures OwnEvents(cfg, rows[i])
    {
      RowMembers(cfg, s, x, prev, last, prev + 1 + i);
    }
  }

  lemma RowMembers(cfg: Config, s: State, x: Option<Symbol>, prev: nat, last: nat, p: nat)
    requires cfg.period > 0 && p > 0
    ensures OwnEvents(cfg, MakeRow(cfg, s, x, prev, last, p))
  {
    var events := Routed(cfg.period, prev, last, s.pending, ToRow(p));
    RoutedMeans(cfg.period, prev, last, s.pending, ToRow(p));
    forall e | e in events && !e.kind.FundingSettlement?
      ensures (p - 1) * cfg.period <= e.ts < p * cfg.period
    {
      InPeriod(e.ts, cfg.period, p);
    }
  }

  lemma TurnMembers(cfg: Config, s: State, op: Op)
    requires cfg.period > 0 && Lists(cfg, s)
    ensures forall r | r in Turn(cfg, s, op).rows :: OwnEvents(cfg, r)
  {
    if !s.finalized {
      match op {
        case OnTime(ts) =>
          if s.clockPeriod.Some? && s.clockPeriod.value < Ripe(cfg, ts) {
            CrossMembers(cfg, s, None, s.clockPeriod.value, Ripe(cfg, ts));
          }
        case OnBook(x, ts, book) =>
          if cfg.mode.OrderbookDriven? && x in s.lastPeriod && s.lastPeriod[x] < Ripe(cfg, ts) {
            CrossMembers(cfg, s, Some(x), s.lastPeriod[x], Ripe(cfg, ts));
          }
        case OnEvent(e) =>
          var s' := s.(pending := s.pending + [e]);
          if s.clockPeriod.Some? && s.clockPeriod.value < Ripe(cfg, e.ts) {
            CrossMembers(cfg, s', None, s.clockPeriod.value, Ripe(cfg, e.ts));
          }
        case Finalize => TerminalRowsCarry(cfg, s, cfg.order(s.lastPeriod.Keys));
        case Drain =>
      }
    }
  }

  /** In every mode and run, a row closed by the clock carries only events of its own period. */
  lemma {:induction false} RowsCarryTheirOwn(cfg: Config, ops: seq<Op>)
    requires Lawful(cfg)
    ensures forall x | x in Run(cfg, ops).rows :: OwnEvents(cfg, x.row)
  {
    if ops != [] {
      var t, op := Run(cfg, ops[..|ops| - 1]), ops[|ops| - 1];
      RowsCarryTheirOwn(cfg, ops[..|ops| - 1]);
      LawfulLists(cfg, t.state);
      TurnMembers(cfg, t.state, op);
      RowsOfWitnessed(Turn(cfg, t.state, op).rows, t.full);
    }
  }

  /**
   Row numbers strictly increase over every one-clock run, the terminal row included, and are
   consecutive when no gap was capped.
   */
  lemma RowNumbers(cfg: Config, symbol: Symbol, ops: seq<Op>)
    requires Lawful(cfg) && forall op | op in ops :: OneClock(cfg, symbol, op)
    ensures var t := Run(cfg, ops);
            && (forall i, j | 0 <= i < j < |t.rows| :: t.rows[i].row.number < t.rows[j].row.number)
            && (!t.capped ==> forall i | 0 <= i < |t.rows| :: t.rows[i].row.number == t.rows[0].row.number + i)
  {
    RunKeepsGrid(cfg, symbol, ops);
    var rows := Run(cfg, ops).rows;
    var ns := Numbers(rows);
    assert forall i | 0 <= i < |rows| :: ns[i] == rows[i].row.number;
  }
}
