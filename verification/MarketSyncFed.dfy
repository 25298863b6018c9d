/**
 What a row carries, said of the calls: its timestamp, its book and its settlements.
 */
module MarketSyncFed {
  import opened Wrappers
  import opened MarketSync
  import opened MarketSyncTrace
  import opened MarketSyncGrid
  import opened MarketSyncBooks

  // ---------------------------------------------------------------------------
  // The books that were fed
  // ---------------------------------------------------------------------------

  /** Call i fed a book of the symbol whose period is below p. */
  ghost predicate FedBelow(period: nat, ops: seq<Op>, x: Symbol, p: nat, i: int)
    requires period > 0
  {
    0 <= i < |ops| && ops[i].OnBook? && ops[i].symbol == x && ops[i].ts / period < p
  }

  /** Of those, call i fed the last one of the greatest period. */
  ghost predicate FedLast(period: nat, ops: seq<Op>, x: Symbol, p: nat, i: int)
    requires period > 0
  {
    && FedBelow(period, ops, x, p, i)
    && forall j | FedBelow(period, ops, x, p, j) ::
         ops[j].ts / period < ops[i].ts / period || (ops[j].ts / period == ops[i].ts / period && j <= i)
  }

  /** The book is the last fed of the greatest period below p, and absent when none was fed there. */
  ghost predicate IsFed(period: nat, ops: seq<Op>, x: Symbol, p: nat, book: Option<Orderbook>)
    requires period > 0
  {
    && (book == None <==> forall i :: !FedBelow(period, ops, x, p, i))
    && (forall i | FedLast(period, ops, x, p, i) :: book == Some(ops[i].book))
  }

  /** Some call fed the last book, when any did. */
  lemma {:induction false} LastExists(period: nat, ops: seq<Op>, x: Symbol, p: nat, i: int) returns (k: int)
    requires period > 0 && FedBelow(period, ops, x, p, i)
    ensures FedLast(period, ops, x, p, k)
    decreases |ops|
  {
    var n := |ops| - 1;
    var init := ops[..n];
    if j :| FedBelow(period, init, x, p, j) {
      k := LastExists(period, init, x, p, j);
      if FedBelow(period, ops, x, p, n) && ops[n].ts / period >= ops[k].ts / period {
        k := n;
      }
      forall j | FedBelow(period, ops, x, p, j)
        ensures ops[j].ts / period < ops[k].ts / period || (ops[j].ts / period == ops[k].ts / period && j <= k)
      {
        if j < n {
          assert FedBelow(period, init, x, p, j);
        }
      }
    } else {
      k := n;
      assert !FedBelow(period, init, x, p, i);
      forall j | FedBelow(period, ops, x, p, j)
        ensures j == n
      {
        assert j < n ==> !FedBelow(period, init, x, p, j);
      }
    }
  }

  /** A symbol's history, from the calls: at each period the last book fed there. */
  ghost predicate HistoryIs(period: nat, ops: seq<Op>, x: Symbol, m: BookHistory)
    requires period > 0
  {
    && (forall i | 0 <= i < |ops| && ops[i].OnBook? && ops[i].symbol == x :: ops[i].ts / period in m)
    && (forall k | k in m :: exists i :: FedAt(period, ops, x, k, i) && m[k] == ops[i].book)
  }

  /** Call i is the last to feed the symbol a book of period k. */
  ghost predicate FedAt(period: nat, ops: seq<Op>, x: Symbol, k: nat, i: int)
    requires period > 0
  {
    && 0 <= i < |ops| && ops[i].OnBook? && ops[i].symbol == x && ops[i].ts / period == k
    && forall j | i < j < |ops| :: !(ops[j].OnBook? && ops[j].symbol == x && ops[j].ts / period == k)
  }

  ghost function Kept(full: Books, x: Symbol): BookHistory {
    if x in full then full[x] else map[]
  }

  lemma HistorySnoc(period: nat, ops: seq<Op>, op: Op, x: Symbol, m: BookHistory)
    requires period > 0 && HistoryIs(period, ops, x, m)
    ensures op.OnBook? && op.symbol == x ==> HistoryIs(period, ops + [op], x, m[op.ts / period := op.book])
    ensures !(op.OnBook? && op.symbol == x) ==> HistoryIs(period, ops + [op], x, m)
  {
    var ops' := ops + [op];
    var fed := op.OnBook? && op.symbol == x;
    var m' := if fed then m[op.ts / period := op.book] else m;
    forall k | k in m'
      ensures exists i :: FedAt(period, ops', x, k, i) && m'[k] == ops'[i].book
    {
      if fed && k == op.ts / period {
        assert FedAt(period, ops', x, k, |ops|) && ops'[|ops|] == op;
      } else {
        var i :| FedAt(period, ops, x, k, i) && m[k] == ops[i].book;
        assert FedAt(period, ops', x, k, i) && ops'[i] == ops[i];
      }
    }
  }

  /** Asking a history for row p gives what was fed. */
  lemma AskedIsFed(period: nat, ops: seq<Op>, x: Symbol, m: BookHistory, p: nat)
    requires period > 0 && HistoryIs(period, ops, x, m)
    ensures IsFed(period, ops, x, p, AsOf(m, p))
  {
    var k := LastBelow(m, p);
    forall i | FedBelow(period, ops, x, p, i)
      ensures k.Some? && ops[i].ts / period <= k.value
    {
      assert ops[i].ts / period in m;
    }
    if k.Some? {
      var i :| FedAt(period, ops, x, k.value, i) && m[k.value] == ops[i].book;
      assert FedBelow(period, ops, x, p, i);
      forall l | FedLast(period, ops, x, p, l)
        ensures l == i
      {
        assert ops[l].ts / period == k.value;
      }
    }
  }

  lemma {:induction false} FullIsFed(cfg: Config, ops: seq<Op>, x: Symbol)
    requires Lawful(cfg) && !Run(cfg, ops).state.finalized
    ensures HistoryIs(cfg.period, ops, x, Kept(Run(cfg, ops).full, x))
  {
    if ops != [] {
      var init, op := ops[..|ops| - 1], ops[|ops| - 1];
      var t := Run(cfg, init);
      LawfulLists(cfg, t.state);
      StaysOpen(cfg, t.state, op);
      FullIsFed(cfg, init, x);
      HistorySnoc(cfg.period, init, op, x, Kept(t.full, x));
      assert ops == init + [op];
    }
  }

  lemma StaysOpen(cfg: Config, s: State, op: Op)
    requires cfg.period > 0 && Lists(cfg, s)
    ensures !Turn(cfg, s, op).state.finalized ==> !s.finalized
  {}

  // ---------------------------------------------------------------------------
  // Terminal rows
  // ---------------------------------------------------------------------------

  /** Row numbers and everything below them fit the word `finalize` asks with. */
  ghost predicate Fits(cfg: Config, s: State) {
    && (s.clockPeriod.Some? ==> s.clockPeriod.value + 1 <= U64_MAX)
    && (forall x | x in s.lastPeriod :: s.lastPeriod[x] + 1 <= U64_MAX)
  }

  /** A terminal row carries what the full history of its symbol gives. */
  lemma TerminalIsTrue(cfg: Config, s: State, full: Books, r: Row)
    requires Lawful(cfg) && Lists(cfg, s) && BooksOk(cfg, s, full) && Fits(cfg, s) && !s.finalized
    requires r in Turn(cfg, s, Finalize).rows
    ensures r.terminal && r.snapshot.orderbook == RowBook(cfg, full, r.symbol, U64_MAX)
    ensures r.snapshot.ts == r.number * cfg.period && r.snapshot.events == s.pending
  {
    if cfg.mode.OrderbookDriven? {
      var x := TerminalOf(cfg, s, cfg.order(s.lastPeriod.Keys), r);
      SameAnswer(cfg, s, full, x, U64_MAX);
    } else {
      var symbols := cfg.order(s.books.Keys);
      if symbols != [] {
        SameAnswer(cfg, s, full, symbols[0], U64_MAX);
      }
    }
  }

  lemma {:induction false} TerminalOf(cfg: Config, s: State, symbols: seq<Symbol>, r: Row) returns (x: Symbol)
    requires cfg.period > 0 && (forall x | x in symbols :: x in s.lastPeriod) && r in TerminalRows(cfg, s, symbols)
    ensures x in symbols && x in s.lastPeriod && r == TerminalRow(cfg, s, x)
  {
    x := symbols[|symbols| - 1];
    if r != TerminalRow(cfg, s, x) {
      x := TerminalOf(cfg, s, symbols[..|symbols| - 1], r);
    }
  }

  // ---------------------------------------------------------------------------
  // Whole runs of one symbol
  // ---------------------------------------------------------------------------

  /** What a row carries, from the calls before the one that pushed it. */
  ghost predicate RowIsFed(cfg: Config, ops: seq<Op>, x: Symbol, r: Row)
    requires cfg.period > 0
  {
    && r.snapshot.ts == r.number * cfg.period
    && IsFed(cfg.period, ops, x, if r.terminal then U64_MAX else r.number, r.snapshot.orderbook)
  }

  /** With one symbol every way of picking a book asks that symbol's history. */
  lemma SoleRowBook(cfg: Config, full: Books, symbol: Option<Symbol>, x: Symbol, p: nat)
    requires Lawful(cfg) && full.Keys <= {x} && (symbol == None || symbol == Some(x))
    ensures RowBook(cfg, full, symbol, p) == AsOf(Kept(full, x), p)
  {
    SoleOrder(cfg, x);
    assert full.Keys == {x} || full.Keys == {};
    assert LastBelow(map[], p).None?;
  }

  /** The rows of a run of one symbol are its own, or of no symbol. */
  lemma TurnIsSole(cfg: Config, s: State, x: Symbol, op: Op)
    requires Lawful(cfg) && Lists(cfg, s) && SoleSymbol(x, op) && s.lastPeriod.Keys <= {x}
    ensures Turn(cfg, s, op).state.lastPeriod.Keys <= {x}
    ensures forall r | r in Turn(cfg, s, op).rows ::
              (r.symbol == None || r.symbol == Some(x)) && (r.terminal <==> op == Finalize)
              && (!r.terminal ==> r.snapshot.ts == r.number * cfg.period)
  {
    if !s.finalized {
      match op {
        case OnTime(ts) =>
          if s.clockPeriod.Some? && s.clockPeriod.value < Ripe(cfg, ts) {
            CrossIsSole(cfg, s, None, s.clockPeriod.value, Ripe(cfg, ts));
          }
        case OnBook(y, ts, book) =>
          if cfg.mode.OrderbookDriven? && y in s.lastPeriod && s.lastPeriod[y] < Ripe(cfg, ts) {
            CrossIsSole(cfg, s, Some(y), s.lastPeriod[y], Ripe(cfg, ts));
          }
        case OnEvent(e) =>
          if s.clockPeriod.Some? && s.clockPeriod.value < Ripe(cfg, e.ts) {
            CrossIsSole(cfg, s.(pending := s.pending + [e]), None, s.clockPeriod.value, Ripe(cfg, e.ts));
          }
        case Finalize => FinalizeIsSole(cfg, s, x);
        case Drain =>
      }
    }
  }

  lemma CrossIsSole(cfg: Config, s: State, symbol: Option<Symbol>, prev: nat, current: nat)
    requires cfg.period > 0 && prev < current
    ensures forall r | r in Cross(cfg, s, symbol, prev, current).rows ::
              r.symbol == symbol && !r.terminal && r.snapshot.ts == r.number * cfg.period
  {
    var last := prev + FillCount(prev, current);
    RowAt(cfg, s, symbol, prev, last, last);
  }

  lemma FinalizeIsSole(cfg: Config, s: State, x: Symbol)
    requires Lawful(cfg) && Lists(cfg, s) && s.lastPeriod.Keys <= {x} && !s.finalized
    ensures forall r | r in Turn(cfg, s, Finalize).rows :: (r.symbol == None || r.symbol == Some(x)) && r.terminal
  {
    if cfg.mode.OrderbookDriven? {
      forall r | r in TerminalRows(cfg, s, cfg.order(s.lastPeriod.Keys))
        ensures r.symbol == Some(x) && r.terminal
      {
        var y := TerminalOf(cfg, s, cfg.order(s.lastPeriod.Keys), r);
      }
    }
  }

  lemma {:induction false} RunIsSole(cfg: Config, x: Symbol, ops: seq<Op>)
    requires Lawful(cfg) && forall op | op in ops :: SoleSymbol(x, op)
    ensures Run(cfg, ops).state.lastPeriod.Keys <= {x} && Run(cfg, ops).full.Keys <= {x}
  {
    if ops != [] {
      RunIsSole(cfg, x, ops[..|ops| - 1]);
      var s := Run(cfg, ops[..|ops| - 1]).state;
      LawfulLists(cfg, s);
      TurnIsSole(cfg, s, x, ops[|ops| - 1]);
    }
  }

  /** The rows one more call pushes. */
  ghost function Pushed(cfg: Config, ops: seq<Op>, op: Op): seq<Row>
    requires Lawful(cfg)
  {
    LawfulLists(cfg, Run(cfg, ops).state);
    Turn(cfg, Run(cfg, ops).state, op).rows
  }

  /**
   What a row carries. In every mode, for every run of one symbol: each row a call pushes is stamped with
   its number times the period, and carries the last-fed book of the greatest period below its number, or
   none when no book was fed there; a terminal row the last-fed book of the greatest period of all.
   */
  lemma RowsCarryWhatWasFed(cfg: Config, x: Symbol, ops: seq<Op>, op: Op)
    requires Lawful(cfg) && (forall o | o in ops + [op] :: SoleSymbol(x, o))
    requires op == Finalize ==> Fits(cfg, Run(cfg, ops).state)
    ensures Run(cfg, ops + [op]).rows == Run(cfg, ops).rows + Witnessed(Pushed(cfg, ops, op), Run(cfg, ops).full)
    ensures forall r | r in Pushed(cfg, ops, op) :: RowIsFed(cfg, ops, x, r) && (r.terminal <==> op == Finalize)
  {
    var t := Run(cfg, ops);
    assert (ops + [op])[..|ops|] == ops;
    LawfulLists(cfg, t.state);
    SubRun(x, ops, op);
    RunIsSole(cfg, x, ops);
    TurnIsSole(cfg, t.state, x, op);
    PrunedRefinesFull(cfg, x, ops);
    if !t.state.finalized {
      FullIsFed(cfg, ops, x);
      forall r | r in Pushed(cfg, ops, op)
        ensures RowIsFed(cfg, ops, x, r)
      {
        PushedIsFed(cfg, t, x, ops, op, r);
      }
    }
  }

  lemma SubRun(x: Symbol, ops: seq<Op>, op: Op)
    requires forall o | o in ops + [op] :: SoleSymbol(x, o)
    ensures (forall o | o in ops :: SoleSymbol(x, o)) && SoleSymbol(x, op)
  {
    assert op in ops + [op];
    assert forall o | o in ops :: o in ops + [op];
  }

  lemma PushedIsFed(cfg: Config, t: Trace, x: Symbol, ops: seq<Op>, op: Op, r: Row)
    requires Lawful(cfg) && Lists(cfg, t.state) && SoleSymbol(x, op) && !t.state.finalized
    requires op == Finalize ==> Fits(cfg, t.state)
    requires BooksOk(cfg, t.state, t.full) && TracksSole(cfg, x, t.state.books) && t.full.Keys <= {x}
    requires t.state.lastPeriod.Keys <= {x} && HistoryIs(cfg.period, ops, x, Kept(t.full, x))
    requires r in Turn(cfg, t.state, op).rows
    ensures RowIsFed(cfg, ops, x, r)
  {
    TurnIsSole(cfg, t.state, x, op);
    var p := if r.terminal then U64_MAX else r.number;
    if op == Finalize {
      TerminalIsTrue(cfg, t.state, t.full, r);
    } else {
      TurnBooks(cfg, t.state, x, op, t.full);
      assert TrueRow(cfg, t.full, r);
    }
    SoleRowBook(cfg, t.full, r.symbol, x, p);
    AskedIsFed(cfg.period, ops, x, Kept(t.full, x), p);
  }

  /** `finalize` pushes one terminal row for each anchored clock, right behind it, with all that is left. */
  lemma FinalizePushes(cfg: Config, s: State)
    requires Lawful(cfg) && Lists(cfg, s) && !s.finalized
    ensures var rows := Turn(cfg, s, Finalize).rows;
            && (!cfg.mode.OrderbookDriven? ==>
                  if s.clockPeriod.Some?
                  then |rows| == 1 && rows[0].number == s.clockPeriod.value + 1 && rows[0].snapshot.events == s.pending
                  else rows == [])
            && (cfg.mode.OrderbookDriven? ==>
                  && |rows| == |s.lastPeriod|
                  && forall r | r in rows ::
                       r.symbol.Some? && r.symbol.value in s.lastPeriod
                       && r.number == s.lastPeriod[r.symbol.value] + 1 && r.snapshot.events == s.pending)
  {
    var symbols := cfg.order(s.lastPeriod.Keys);
    if cfg.mode.OrderbookDriven? {
      TerminalRowsCarry(cfg, s, symbols);
      assert |symbols| == |multiset(symbols)| == |multiset(s.lastPeriod.Keys)| == |s.lastPeriod|;
      forall r | r in TerminalRows(cfg, s, symbols)
        ensures r.symbol.Some? && r.symbol.value in s.lastPeriod && r.number == s.lastPeriod[r.symbol.value] + 1
      {
        var x := TerminalOf(cfg, s, symbols, r);
      }
    }
  }

  // ---------------------------------------------------------------------------
  // The crossing itself
  // ---------------------------------------------------------------------------

  /** The row an event would be placed in by its own timestamp alone: 1 plus its period. */
  ghost predicate Own(period: nat, e: Event, p: nat) {
    p > 0 && (p - 1) * period <= e.ts < p * period
  }

  /**
   Where a crossing puts an event. It goes to the row of its own period, and to no other; a settlement
   whose row is gone goes to the first row of the crossing instead. It stays exactly when every row of the
   crossing is before its own period, and is dropped exactly when it is no settlement and its row is gone.
   */
  lemma CrossPlaces(cfg: Config, s: State, symbol: Option<Symbol>, prev: nat, current: nat, e: Event, own: nat)
    requires cfg.period > 0 && prev < current && Own(cfg.period, e, own) && e in s.pending
    ensures var c := Cross(cfg, s, symbol, prev, current);
            var last := prev + if current - prev > 10_000 then 10_000 else current - prev;
            && |c.rows| == last - prev
            && (forall i | 0 <= i < |c.rows| :: c.rows[i].number == prev + 1 + i)
            && (forall r | r in c.rows ::
                  e in r.snapshot.events <==>
                  r.number == own || (e.kind == FundingSettlement && own <= prev && r.number == prev + 1))
            && (e in c.state.pending <==> own > last)
            && (e in c.late <==> e.kind != FundingSettlement && own <= prev)
  {
    var last := prev + FillCount(prev, current);
    RouteIs(cfg.period, prev, last, e, own);
    RowAt(cfg, s, symbol, prev, last, last);
    RoutedMeans(cfg.period, prev, last, s.pending, Keep);
    RoutedMeans(cfg.period, prev, last, s.pending, Late);
    var rows := MakeRows(cfg, s, symbol, prev, last, last);
    forall i | 0 <= i < |rows|
      ensures e in rows[i].snapshot.events <==> Route(cfg.period, prev, last, e) == ToRow(rows[i].number)
    {
      RoutedMeans(cfg.period, prev, last, s.pending, ToRow(prev + 1 + i));
    }
  }

  /** The destination of an event whose own row is known. */
  lemma RouteIs(period: nat, prev: nat, last: nat, e: Event, own: nat)
    requires period > 0 && Own(period, e, own) && prev < last
    ensures Route(period, prev, last, e) ==
            if own > last then Keep
            else if own > prev then ToRow(own)
            else if e.kind == FundingSettlement then ToRow(prev + 1)
            else Late
  {
    OwnIsUnique(period, e, own);
  }

  /** The places, in arrival order, of the events that go to one destination. */
  ghost function Places(period: nat, prev: nat, last: nat, es: seq<Event>, d: Dest): seq<nat>
    requires period > 0
  {
    if es == [] then []
    else
      var n := |es| - 1;
      Places(period, prev, last, es[..n], d) + if Route(period, prev, last, es[n]) == d then [n] else []
  }

  /** The events of a row, and those that stay, keep the order they arrived in. */
  lemma {:induction false} OrderIsKept(period: nat, prev: nat, last: nat, es: seq<Event>, d: Dest)
    requires period > 0
    ensures var routed, places := Routed(period, prev, last, es, d), Places(period, prev, last, es, d);
            && |routed| == |places|
            && (forall i | 0 <= i < |places| :: places[i] < |es| && routed[i] == es[places[i]])
            && (forall i, j | 0 <= i < j < |places| :: places[i] < places[j])
  {
    if es != [] {
      OrderIsKept(period, prev, last, es[..|es| - 1], d);
    }
  }

  lemma OwnIsUnique(period: nat, e: Event, p: nat)
    requires period > 0 && Own(period, e, p)
    ensures e.ts / period + 1 == p
  {
    var q := e.ts / period;
    assert e.ts == q * period + e.ts % period;
    assert (q + 1) * period == q * period + period;
    OnePlace(q, p - 1, e.ts, period);
  }

  lemma OnePlace(a: nat, b: nat, n: nat, period: nat)
    requires a * period <= n < (a + 1) * period && b * period <= n < (b + 1) * period
    ensures a == b
  {
    if a < b {
      Multiplies(a + 1, b, period);
    } else if b < a {
      Multiplies(b + 1, a, period);
    }
  }

  lemma Multiplies(a: nat, b: nat, period: nat)
    requires a <= b
    ensures a * period <= b * period
  {}

  /** The period a driving timestamp makes ripe: the one it falls in, moved back by the hold-back window. */
  lemma RipeMeans(cfg: Config, ts: nat)
    requires cfg.period > 0
    ensures var c := Ripe(cfg, ts);
            if ts < cfg.delay then c == 0
            else c * cfg.period <= ts - cfg.delay < (c + 1) * cfg.period
  {
    var x := if ts >= cfg.delay then ts - cfg.delay else 0;
    assert x == x / cfg.period * cfg.period + x % cfg.period;
  }
}
