/**
 The hold-back guarantee: an event no more than W behind the driving clock when it arrives is
 never dropped as late.
 */
module MarketSyncHoldBack {
  import opened Wrappers
  import opened MarketSync
  import opened MarketSyncTrace
  import opened MarketSyncGrid

  /** After a call the event is waiting for a row to come, or sits in its own row or the terminal one. */
  ghost predicate Safe(cfg: Config, e: Event, eff: Effect, c: Option<nat>)
    requires cfg.period > 0
  {
    && e !in eff.late
    && (e in eff.state.pending ==> !eff.state.finalized && c.Some? && OwnRow(cfg, e) > c.value)
    && (e in eff.state.pending || Landed(cfg, e, eff.rows))
  }

  ghost predicate Landed(cfg: Config, e: Event, rows: seq<Row>)
    requires cfg.period > 0
  {
    exists r | r in rows :: e in r.snapshot.events && (r.terminal || r.number == OwnRow(cfg, e))
  }

  ghost predicate Absent(e: Event, eff: Effect) {
    e !in eff.late && e !in eff.state.pending
  }

  lemma CrossIsSafe(cfg: Config, s: State, x: Option<Symbol>, prev: nat, current: nat, e: Event)
    requires cfg.period > 0 && prev < current && current - prev <= MAX_GAP_FILL && !s.finalized
    requires e in s.pending && !e.kind.FundingSettlement? && OwnRow(cfg, e) > prev
    ensures Safe(cfg, e, Cross(cfg, s, x, prev, current), Some(current))
  {
    var own := OwnRow(cfg, e);
    RoutedMeans(cfg.period, prev, current, s.pending, Late);
    RoutedMeans(cfg.period, prev, current, s.pending, Keep);
    if own <= current {
      RoutedMeans(cfg.period, prev, current, s.pending, ToRow(own));
      RowAt(cfg, s, x, prev, current, current);
      var rows := Cross(cfg, s, x, prev, current).rows;
      var r := rows[own - prev - 1];
      assert r in rows && r.number == own && e in r.snapshot.events;
    }
  }

  lemma CrossIsAbsent(cfg: Config, s: State, x: Option<Symbol>, prev: nat, current: nat, e: Event)
    requires cfg.period > 0 && prev < current && e !in s.pending
    ensures Absent(e, Cross(cfg, s, x, prev, current))
  {
    var last := prev + FillCount(prev, current);
    RoutedMeans(cfg.period, prev, last, s.pending, Late);
    RoutedMeans(cfg.period, prev, last, s.pending, Keep);
  }

  lemma AdvanceIsSafe(cfg: Config, s: State, ts: nat, e: Event)
    requires cfg.period > 0 && s.clockPeriod.Some? && !s.finalized && !AdvanceGrid(cfg, s, ts).capped
    requires e in s.pending && !e.kind.FundingSettlement? && OwnRow(cfg, e) > s.clockPeriod.value
    ensures var eff := AdvanceGrid(cfg, s, ts); Safe(cfg, e, eff, eff.state.clockPeriod)
  {
    if s.clockPeriod.value < Ripe(cfg, ts) {
      CrossIsSafe(cfg, s, None, s.clockPeriod.value, Ripe(cfg, ts), e);
    }
  }

  lemma AdvanceIsAbsent(cfg: Config, s: State, ts: nat, e: Event)
    requires cfg.period > 0 && e !in s.pending
    ensures Absent(e, AdvanceGrid(cfg, s, ts))
  {
    if s.clockPeriod.Some? && s.clockPeriod.value < Ripe(cfg, ts) {
      CrossIsAbsent(cfg, s, None, s.clockPeriod.value, Ripe(cfg, ts), e);
    }
  }

  lemma BookIsSafe(cfg: Config, symbol: Symbol, s: State, x: Symbol, ts: nat, book: Orderbook, e: Event)
    requires cfg.period > 0 && OneClock(cfg, symbol, OnBook(x, ts, book)) && !s.finalized
    requires Clock(cfg, symbol, s).Some? && !FeedBook(cfg, s, x, ts, book).capped
    requires e in s.pending && !e.kind.FundingSettlement? && OwnRow(cfg, e) > Clock(cfg, symbol, s).value
    ensures var eff := FeedBook(cfg, s, x, ts, book); Safe(cfg, e, eff, Clock(cfg, symbol, eff.state))
  {
    if cfg.mode.OrderbookDriven? && s.lastPeriod[x] < Ripe(cfg, ts) {
      CrossIsSafe(cfg, s, Some(x), s.lastPeriod[x], Ripe(cfg, ts), e);
    }
  }

  lemma FinalizeIsSafe(cfg: Config, symbol: Symbol, s: State, e: Event)
    requires Lawful(cfg) && Lists(cfg, s) && !s.finalized && Clock(cfg, symbol, s).Some?
    requires e in s.pending
    ensures var eff := Turn(cfg, s, Finalize); Safe(cfg, e, eff, Clock(cfg, symbol, eff.state))
  {
    var eff := Turn(cfg, s, Finalize);
    if cfg.mode.OrderbookDriven? {
      var symbols := cfg.order(s.lastPeriod.Keys);
      assert symbol in multiset(s.lastPeriod.Keys);
      assert symbol in multiset(symbols);
      assert symbols != [];
      var r := eff.rows[|eff.rows| - 1];
      assert r in eff.rows && r.terminal && e in r.snapshot.events;
    } else {
      var r := eff.rows[0];
      assert r in eff.rows && r.terminal && e in r.snapshot.events;
    }
  }

  /** One call keeps a waiting event safe. */
  lemma TurnIsSafe(cfg: Config, symbol: Symbol, s: State, op: Op, e: Event)
    requires Lawful(cfg) && Lists(cfg, s) && OneClock(cfg, symbol, op) && !s.finalized
    requires Clock(cfg, symbol, s).Some? && !Turn(cfg, s, op).capped
    requires (e in s.pending || op == OnEvent(e)) && !e.kind.FundingSettlement?
                 && OwnRow(cfg, e) > Clock(cfg, symbol, s).value
    ensures var eff := Turn(cfg, s, op); Safe(cfg, e, eff, Clock(cfg, symbol, eff.state))
  {
    match op {
      case OnTime(ts) =>
        if cfg.mode.ExternalClock? {
          AdvanceIsSafe(cfg, s, ts, e);
        }
      case OnBook(x, ts, book) => BookIsSafe(cfg, symbol, s, x, ts, book, e);
      case OnEvent(x) =>
        if Drives(cfg.mode, x.kind) {
          AdvanceIsSafe(cfg, s.(pending := s.pending + [x]), x.ts, e);
        }
      case Finalize => FinalizeIsSafe(cfg, symbol, s, e);
      case Drain =>
    }
  }

  /** A call cannot lose an event it does not hold. */
  lemma TurnIsAbsent(cfg: Config, s: State, op: Op, e: Event)
    requires cfg.period > 0 && Lists(cfg, s) && e !in s.pending && op != OnEvent(e)
    ensures Absent(e, Turn(cfg, s, op))
  {
    if !s.finalized {
      match op {
        case OnTime(ts) => AdvanceIsAbsent(cfg, s, ts, e);
        case OnBook(x, ts, book) =>
          if cfg.mode.OrderbookDriven? && x in s.lastPeriod && s.lastPeriod[x] < Ripe(cfg, ts) {
            CrossIsAbsent(cfg, s, Some(x), s.lastPeriod[x], Ripe(cfg, ts), e);
          }
        case OnEvent(x) => AdvanceIsAbsent(cfg, s.(pending := s.pending + [x]), x.ts, e);
        case _ =>
      }
    }
  }

  lemma {:induction false} NeverFedIsAbsent(cfg: Config, ops: seq<Op>, e: Event)
    requires Lawful(cfg) && OnEvent(e) !in ops
    ensures var t := Run(cfg, ops); e !in t.late && e !in t.state.pending
  {
    if ops != [] {
      var t := Run(cfg, ops[..|ops| - 1]);
      NeverFedIsAbsent(cfg, ops[..|ops| - 1], e);
      LawfulLists(cfg, t.state);
      TurnIsAbsent(cfg, t.state, ops[|ops| - 1], e);
    }
  }

  // ---------------------------------------------------------------------------
  // Whole runs
  // ---------------------------------------------------------------------------

  /** Where a protected event may be. */
  ghost predicate Protected(cfg: Config, t: Trace, e: Event, c: Option<nat>)
    requires cfg.period > 0
  {
    && e !in t.late
    && (e in t.state.pending ==> !t.state.finalized && c.Some? && OwnRow(cfg, e) > c.value)
    && (e in t.state.pending
        || exists x | x in t.rows :: e in x.row.snapshot.events && (x.row.terminal || x.row.number == OwnRow(cfg, e)))
  }

  lemma ExtendProtects(cfg: Config, t: Trace, op: Op, eff: Effect, e: Event, c: Option<nat>)
    requires cfg.period > 0 && e !in t.late && Safe(cfg, e, eff, c)
    ensures Protected(cfg, Extend(cfg, t, op, eff), e, c)
  {
    if Landed(cfg, e, eff.rows) {
      LandedIsSeen(cfg, t, eff.rows, e);
    }
  }

  lemma LandedIsSeen(cfg: Config, t: Trace, rows: seq<Row>, e: Event)
    requires cfg.period > 0 && Landed(cfg, e, rows)
    ensures exists x | x in t.rows + Witnessed(rows, t.full) ::
              e in x.row.snapshot.events && (x.row.terminal || x.row.number == OwnRow(cfg, e))
  {
    RowsOfWitnessed(rows, t.full);
    var r :| r in rows && e in r.snapshot.events && (r.terminal || r.number == OwnRow(cfg, e));
    var i :| 0 <= i < |rows| && rows[i] == r;
    assert Witnessed(rows, t.full)[i] == Seen(r, t.full);
    assert Seen(r, t.full) in t.rows + Witnessed(rows, t.full);
  }

  lemma TurnProtects(cfg: Config, symbol: Symbol, t: Trace, op: Op, e: Event)
    requires Lawful(cfg) && OneClock(cfg, symbol, op) && !e.kind.FundingSettlement?
    requires Protected(cfg, t, e, Clock(cfg, symbol, t.state)) && op != OnEvent(e)
    requires !Observe(cfg, t, op).capped
    ensures var t' := Observe(cfg, t, op); Protected(cfg, t', e, Clock(cfg, symbol, t'.state))
  {
    var s := t.state;
    LawfulLists(cfg, s);
    var eff := Turn(cfg, s, op);
    if e in s.pending {
      TurnIsSafe(cfg, symbol, s, op, e);
      ExtendProtects(cfg, t, op, eff, e, Clock(cfg, symbol, eff.state));
    } else {
      TurnIsAbsent(cfg, s, op, e);
      var x :| x in t.rows && e in x.row.snapshot.events && (x.row.terminal || x.row.number == OwnRow(cfg, e));
      assert x in Extend(cfg, t, op, eff).rows;
    }
  }

  lemma CappedGrows(cfg: Config, ops: seq<Op>, more: seq<Op>)
    requires Lawful(cfg)
    ensures Run(cfg, ops).capped ==> Run(cfg, ops + more).capped
    decreases |more|
  {
    if more == [] {
      assert ops + more == ops;
    } else {
      CappedGrows(cfg, ops, more[..|more| - 1]);
      assert (ops + more)[..|ops + more| - 1] == ops + more[..|more| - 1];
    }
  }

  lemma {:induction false} RunProtects(cfg: Config, symbol: Symbol, ops: seq<Op>, more: seq<Op>, e: Event)
    requires Lawful(cfg) && !e.kind.FundingSettlement?
    requires Protected(cfg, Run(cfg, ops), e, Clock(cfg, symbol, Run(cfg, ops).state))
    requires OnEvent(e) !in more && (forall op | op in more :: OneClock(cfg, symbol, op))
    requires !Run(cfg, ops + more).capped
    ensures var t := Run(cfg, ops + more); Protected(cfg, t, e, Clock(cfg, symbol, t.state))
    decreases |more|
  {
    if more == [] {
      assert ops + more == ops;
    } else {
      var init, op := more[..|more| - 1], more[|more| - 1];
      assert (ops + more)[..|ops + more| - 1] == ops + init;
      assert Run(cfg, ops + more) == Observe(cfg, Run(cfg, ops + init), op);
      RunProtects(cfg, symbol, ops, init, e);
      TurnProtects(cfg, symbol, Run(cfg, ops + init), op, e);
    }
  }

  /**
   Hold-back. Over every one-clock run without a capped gap, an event that arrives once after the
   clock is anchored, with a timestamp at most W behind the largest driving timestamp so far, is
   never dropped: it ends in its own row, is still pending, or is in the terminal row.
   */
  lemma HoldBackProtects(cfg: Config, symbol: Symbol, before: seq<Op>, e: Event, after: seq<Op>)
    requires Lawful(cfg) && !e.kind.FundingSettlement?
    requires forall op | op in before + [OnEvent(e)] + after :: OneClock(cfg, symbol, op)
    requires OnEvent(e) !in before && OnEvent(e) !in after
    requires !Run(cfg, before + [OnEvent(e)] + after).capped
    requires var t := Run(cfg, before); !t.state.finalized && t.driven.Some? && e.ts + cfg.delay >= t.driven.value
    ensures var t := Run(cfg, before + [OnEvent(e)] + after);
            && e !in t.late
            && (e in t.state.pending
                || exists x | x in t.rows ::
                             e in x.row.snapshot.events && (x.row.terminal || x.row.number == OwnRow(cfg, e)))
  {
    var t, ops := Run(cfg, before), before + [OnEvent(e)];
    assert ops[..|ops| - 1] == before;
    assert forall o | o in before :: o in ops + after;
    RunKeepsGrid(cfg, symbol, before);
    NeverFedIsAbsent(cfg, before, e);
    CappedGrows(cfg, ops, after);
    assert Run(cfg, ops) == Observe(cfg, t, OnEvent(e));
    ArrivalProtects(cfg, symbol, t, e);
    RunProtects(cfg, symbol, ops, after, e);
  }

  lemma ArrivalProtects(cfg: Config, symbol: Symbol, t: Trace, e: Event)
    requires Lawful(cfg) && !e.kind.FundingSettlement? && !t.state.finalized && e !in t.late
    requires GridOk(cfg, t, Clock(cfg, symbol, t.state)) && !Observe(cfg, t, OnEvent(e)).capped
    requires t.driven.Some? && e.ts + cfg.delay >= t.driven.value
    ensures var t' := Observe(cfg, t, OnEvent(e)); Protected(cfg, t', e, Clock(cfg, symbol, t'.state))
  {
    var m := t.driven.value;
    QuotientGrows(if m >= cfg.delay then m - cfg.delay else 0, e.ts, cfg.period);
    LawfulLists(cfg, t.state);
    TurnIsSafe(cfg, symbol, t.state, OnEvent(e), e);
    var eff := Turn(cfg, t.state, OnEvent(e));
    ExtendProtects(cfg, t, OnEvent(e), eff, e, Clock(cfg, symbol, eff.state));
  }
}
