/**
 The pruned book history against the full one: when every row closed by a clock carries the book an
 unpruned history would have given it, and when not.
 */
module MarketSyncBooks {
  import opened Wrappers
  import opened MarketSync
  import opened MarketSyncTrace
  import opened MarketSyncGrid

  ghost predicate SoleSymbol(x: Symbol, op: Op) {
    op.OnBook? ==> op.symbol == x
  }

  /** Both histories answer a question about row p alike. */
  ghost predicate Agree(m: BookHistory, full: BookHistory, p: nat) {
    var k := LastBelow(m, p);
    k == LastBelow(full, p) && (k.Some? ==> m[k.value] == full[k.value])
  }

  ghost predicate AgreeFrom(m: BookHistory, full: BookHistory, c: nat) {
    forall p: nat | p >= c :: Agree(m, full, p)
  }

  lemma LastIs(m: BookHistory, p: nat, k: nat)
    requires k in m && k < p && forall j | j in m && j < p :: j <= k
    ensures LastBelow(m, p) == Some(k)
  {
    assert LastBelow(m, p).Some?;
  }

  /** A book recorded late, even below what was pruned, changes both answers alike. */
  lemma RecordAgrees(m: BookHistory, full: BookHistory, p: nat, k: nat, book: Orderbook)
    requires Agree(m, full, p)
    ensures Agree(m[k := book], full[k := book], p)
  {
    var was := LastBelow(m, p);
    if k < p && (was.None? || was.value <= k) {
      LastIs(m[k := book], p, k);
      LastIs(full[k := book], p, k);
    } else if was.Some? {
      LastIs(m[k := book], p, was.value);
      LastIs(full[k := book], p, was.value);
    } else {
      assert LastBelow(m[k := book], p).None?;
      assert LastBelow(full[k := book], p).None?;
    }
  }

  /**
   What pruning keeps: a book stays if and only if no later book lies below the row, so of the books below
   the row only the newest stays, and nothing at or above it goes.
   */
  lemma PruneKeepsIff(m: BookHistory, lastRow: nat, k: nat)
    requires k in m
    ensures var m' := Prune(m, lastRow);
            && (k in m' <==> !exists j :: j in m && k < j < lastRow)
            && (k in m' ==> m'[k] == m[k]) && m'.Keys <= m.Keys
  {
    var keep := LastBelow(m, lastRow);
    if keep.Some? && k < keep.value {
      assert keep.value in m && k < keep.value < lastRow;
    }
  }

  /** Pruning at a row changes no answer from that row on. */
  lemma PruneAgrees(m: BookHistory, lastRow: nat, p: nat)
    requires p >= lastRow
    ensures Agree(Prune(m, lastRow), m, p)
  {
    var keep, k := LastBelow(m, lastRow), LastBelow(m, p);
    if keep.Some? {
      assert k.Some? && keep.value <= k.value;
      LastIs(Prune(m, lastRow), p, k.value);
    }
  }

  /** Every recorded period is below the bound. */
  ghost predicate Below(m: BookHistory, h: nat) {
    forall k | k in m :: k < h
  }

  /** Pruning at a row above everything recorded keeps the newest book, which is all that later rows ask for. */
  lemma PruneAboveAgrees(m: BookHistory, lastRow: nat, p: nat)
    requires Below(m, p) && p <= lastRow
    ensures Agree(Prune(m, lastRow), m, p)
  {
    var keep := LastBelow(m, lastRow);
    if keep.Some? {
      LastIs(m, p, keep.value);
      LastIs(Prune(m, lastRow), p, keep.value);
    } else {
      assert LastBelow(m, p).None?;
    }
  }

  lemma PruneKeepsAgreement(m: BookHistory, full: BookHistory, h: nat, h': nat, lastRow: nat)
    requires AgreeFrom(m, full, h) && h <= h' && (lastRow <= h' || Below(m, h'))
    ensures AgreeFrom(Prune(m, lastRow), full, h')
  {
    forall p: nat | p >= h'
      ensures Agree(Prune(m, lastRow), full, p)
    {
      assert Agree(m, full, p);
      if lastRow <= p {
        PruneAgrees(m, lastRow, p);
      } else {
        PruneAboveAgrees(m, lastRow, p);
      }
    }
  }

  lemma RecordKeepsAgreement(m: BookHistory, full: BookHistory, h: nat, k: nat, book: Orderbook)
    requires AgreeFrom(m, full, h)
    ensures AgreeFrom(m[k := book], full[k := book], h)
  {
    var m', full' := m[k := book], full[k := book];
    forall p: nat | p >= h
      ensures Agree(m', full', p)
    {
      assert Agree(m, full, p);
      RecordAgrees(m, full, p, k, book);
    }
  }

  // ---------------------------------------------------------------------------
  // All symbols
  // ---------------------------------------------------------------------------

  type Books = map<Symbol, BookHistory>

  /** The first row the symbol's books can still be asked for. */
  ghost function Horizon(cfg: Config, s: State, x: Symbol): nat {
    if cfg.mode.OrderbookDriven? then if x in s.lastPeriod then s.lastPeriod[x] + 1 else 0
    else if s.clockPeriod.Some? then s.clockPeriod.value + 1
    else 0
  }

  /** Book-driven without a hold-back window: nothing is recorded past a symbol's own clock. */
  ghost predicate Prompt(cfg: Config) {
    cfg.mode.OrderbookDriven? && cfg.delay == 0
  }

  ghost predicate HistoryOk(cfg: Config, m: BookHistory, full: BookHistory, h: nat) {
    AgreeFrom(m, full, h) && (Prompt(cfg) ==> Below(m, h))
  }

  ghost predicate BooksOk(cfg: Config, s: State, full: Books) {
    && s.books.Keys == full.Keys
    && forall x | x in s.books :: HistoryOk(cfg, s.books[x], full[x], Horizon(cfg, s, x))
  }

  /** The row carries what the full history of its symbol gives. */
  ghost predicate TrueRow(cfg: Config, full: Books, r: Row) {
    !r.terminal ==> r.snapshot.orderbook == RowBook(cfg, full, r.symbol, r.number)
  }

  ghost predicate HorizonsGrow(cfg: Config, s: State, s': State) {
    forall x: Symbol :: Horizon(cfg, s, x) <= Horizon(cfg, s', x)
  }

  lemma ClockMoveIsOk(cfg: Config, s: State, s': State, full: Books)
    requires BooksOk(cfg, s, full) && s'.books == s.books && HorizonsGrow(cfg, s, s')
    ensures BooksOk(cfg, s', full)
  {
    forall x | x in s'.books
      ensures HistoryOk(cfg, s'.books[x], full[x], Horizon(cfg, s', x))
    {
      assert HistoryOk(cfg, s.books[x], full[x], Horizon(cfg, s, x));
    }
  }

  lemma PruneIsOk(cfg: Config, s: State, s': State, full: Books, lastRow: nat)
    requires BooksOk(cfg, s, full) && s'.books == PruneAll(s.books, lastRow) && HorizonsGrow(cfg, s, s')
    requires forall x | x in s.books :: lastRow <= Horizon(cfg, s', x) || Prompt(cfg)
    ensures BooksOk(cfg, s', full)
  {
    forall x | x in s'.books
      ensures HistoryOk(cfg, s'.books[x], full[x], Horizon(cfg, s', x))
    {
      assert HistoryOk(cfg, s.books[x], full[x], Horizon(cfg, s, x));
      PruneKeepsAgreement(s.books[x], full[x], Horizon(cfg, s, x), Horizon(cfg, s', x), lastRow);
    }
  }

  lemma RecordIsOk(cfg: Config, s: State, s': State, full: Books, x: Symbol, k: nat, book: Orderbook)
    requires BooksOk(cfg, s, full) && s'.books == Recorded(s.books, x, k, book)
    requires HorizonsGrow(cfg, s, s') && (Prompt(cfg) ==> k < Horizon(cfg, s', x))
    ensures BooksOk(cfg, s', Recorded(full, x, k, book))
  {
    forall y | y in s'.books
      ensures HistoryOk(cfg, s'.books[y], Recorded(full, x, k, book)[y], Horizon(cfg, s', y))
    {
      if y in s.books {
        assert HistoryOk(cfg, s.books[y], full[y], Horizon(cfg, s, y));
      }
      if y == x && x in s.books {
        RecordKeepsAgreement(s.books[x], full[x], Horizon(cfg, s', x), k, book);
      }
    }
  }

  // ---------------------------------------------------------------------------
  // Rows
  // ---------------------------------------------------------------------------

  /** Everything this clock may pick a book from is asked for a row within its horizon. */
  ghost predicate ReadyFor(cfg: Config, s: State, chosen: Option<Symbol>, p: nat) {
    forall x | x in s.books && (chosen == None || chosen == Some(x)) :: Horizon(cfg, s, x) <= p
  }

  lemma SameAnswer(cfg: Config, s: State, full: Books, x: Symbol, p: nat)
    requires BooksOk(cfg, s, full) && (x in s.books ==> Horizon(cfg, s, x) <= p)
    ensures AsOfBook(s.books, x, p) == AsOfBook(full, x, p)
  {
    if x in s.books {
      assert HistoryOk(cfg, s.books[x], full[x], Horizon(cfg, s, x));
      assert Agree(s.books[x], full[x], p);
    }
  }

  lemma RowIsTrue(cfg: Config, s: State, full: Books, chosen: Option<Symbol>, prev: nat, last: nat, p: nat)
    requires cfg.period > 0 && BooksOk(cfg, s, full) && ReadyFor(cfg, s, chosen, p)
    ensures TrueRow(cfg, full, MakeRow(cfg, s, chosen, prev, last, p))
  {
    if chosen.Some? {
      SameAnswer(cfg, s, full, chosen.value, p);
    } else {
      var symbols := cfg.order(s.books.Keys);
      if symbols != [] {
        SameAnswer(cfg, s, full, symbols[0], p);
      }
    }
  }

  lemma {:induction false} RowsAreTrue(
    cfg: Config, s: State, full: Books, chosen: Option<Symbol>, prev: nat, last: nat, upTo: nat)
    requires cfg.period > 0 && BooksOk(cfg, s, full) && ReadyFor(cfg, s, chosen, prev + 1)
    ensures forall r | r in MakeRows(cfg, s, chosen, prev, last, upTo) :: TrueRow(cfg, full, r)
  {
    if upTo > prev {
      RowsAreTrue(cfg, s, full, chosen, prev, last, upTo - 1);
      RowIsTrue(cfg, s, full, chosen, prev, last, upTo);
    }
  }

  // ---------------------------------------------------------------------------
  // One call
  // ---------------------------------------------------------------------------

  /** The runs the refinement holds for: a global clock, no hold-back window, or one symbol. */
  ghost predicate Allowed(cfg: Config, sole: Symbol, op: Op) {
    !cfg.mode.OrderbookDriven? || cfg.delay == 0 || SoleSymbol(sole, op)
  }

  ghost predicate TracksSole(cfg: Config, sole: Symbol, books: Books) {
    cfg.mode.OrderbookDriven? && cfg.delay > 0 ==> books.Keys <= {sole}
  }

  lemma AdvanceBooks(cfg: Config, s: State, ts: nat, full: Books)
    requires cfg.period > 0 && !cfg.mode.OrderbookDriven? && BooksOk(cfg, s, full)
    ensures var e := AdvanceGrid(cfg, s, ts);
            (forall r | r in e.rows :: TrueRow(cfg, full, r)) && BooksOk(cfg, e.state, full)
            && e.state.books.Keys == s.books.Keys
  {
    var current, s' := Ripe(cfg, ts), AdvanceGrid(cfg, s, ts).state;
    if s.clockPeriod.Some? && s.clockPeriod.value < current {
      var prev := s.clockPeriod.value;
      var last := prev + FillCount(prev, current);
      RowsAreTrue(cfg, s, full, None, prev, last, last);
      PruneIsOk(cfg, s, s', full, last);
    } else {
      ClockMoveIsOk(cfg, s, s', full);
    }
  }

  /** Without a window a book is recorded at or below its symbol's clock. */
  lemma PromptRecord(cfg: Config, s: State, x: Symbol, ts: nat, book: Orderbook)
    requires cfg.period > 0 && Prompt(cfg)
    ensures ts / cfg.period < Horizon(cfg, FeedBook(cfg, s, x, ts, book).state, x)
  {
    assert Ripe(cfg, ts) == ts / cfg.period;
  }

  /** The state between a crossing and the recording of the book that caused it. */
  ghost function Crossed(cfg: Config, s: State, x: Symbol, current: nat): State
    requires cfg.period > 0 && x in s.lastPeriod && s.lastPeriod[x] < current
  {
    Cross(cfg, s, Some(x), s.lastPeriod[x], current).state.(lastPeriod := s.lastPeriod[x := current])
  }

  /** A crossing book-driven call: rows, prune, then record. */
  lemma FeedCrosses(cfg: Config, s: State, x: Symbol, ts: nat, book: Orderbook)
    requires cfg.period > 0 && cfg.mode.OrderbookDriven? && x in s.lastPeriod && s.lastPeriod[x] < Ripe(cfg, ts)
    ensures var e, prev, current := FeedBook(cfg, s, x, ts, book), s.lastPeriod[x], Ripe(cfg, ts);
            var last, s1 := prev + FillCount(prev, current), Crossed(cfg, s, x, current);
            && e.state.books == Recorded(s1.books, x, ts / cfg.period, book) && e.state.lastPeriod == s1.lastPeriod
            && e.rows == MakeRows(cfg, s, Some(x), prev, last, last)
            && s1.books == PruneAll(s.books, last) && s1.lastPeriod == s.lastPeriod[x := current]
            && e.state.finalized == s.finalized
  {}

  lemma HorizonOfOne(cfg: Config, s: State, s': State, x: Symbol, current: nat)
    requires cfg.mode.OrderbookDriven? && x in s.lastPeriod && s.lastPeriod[x] < current
    requires s'.lastPeriod == s.lastPeriod[x := current]
    ensures HorizonsGrow(cfg, s, s') && Horizon(cfg, s', x) == current + 1
  {}

  lemma CrossPruneIsOk(cfg: Config, s: State, s': State, x: Symbol, current: nat, last: nat, full: Books)
    requires cfg.mode.OrderbookDriven? && BooksOk(cfg, s, full) && (cfg.delay == 0 || s.books.Keys <= {x})
    requires x in s.lastPeriod && s.lastPeriod[x] < current && last <= current
    requires s'.books == PruneAll(s.books, last) && s'.lastPeriod == s.lastPeriod[x := current]
    ensures BooksOk(cfg, s', full)
  {
    HorizonOfOne(cfg, s, s', x, current);
    PruneIsOk(cfg, s, s', full, last);
  }

  lemma CrossRecordIsOk(cfg: Config, s: State, s': State, x: Symbol, ts: nat, book: Orderbook, full: Books)
    requires cfg.period > 0 && cfg.mode.OrderbookDriven? && BooksOk(cfg, s, full)
    requires x in s.lastPeriod && s.lastPeriod[x] == Ripe(cfg, ts)
    requires s'.books == Recorded(s.books, x, ts / cfg.period, book) && s'.lastPeriod == s.lastPeriod
    ensures BooksOk(cfg, s', Recorded(full, x, ts / cfg.period, book))
  {
    assert Prompt(cfg) ==> Ripe(cfg, ts) == ts / cfg.period;
    RecordIsOk(cfg, s, s', full, x, ts / cfg.period, book);
  }

  lemma CrossBooks(cfg: Config, s: State, x: Symbol, ts: nat, book: Orderbook, full: Books)
    requires cfg.period > 0 && cfg.mode.OrderbookDriven? && BooksOk(cfg, s, full)
    requires x in s.lastPeriod && s.lastPeriod[x] < Ripe(cfg, ts)
    requires cfg.delay == 0 || s.books.Keys <= {x}
    ensures var e := FeedBook(cfg, s, x, ts, book);
            && (forall r | r in e.rows :: TrueRow(cfg, full, r))
            && BooksOk(cfg, e.state, Recorded(full, x, ts / cfg.period, book))
            && e.state.books.Keys == s.books.Keys + {x}
  {
    var prev, current := s.lastPeriod[x], Ripe(cfg, ts);
    var last, s1 := prev + FillCount(prev, current), Crossed(cfg, s, x, current);
    FeedCrosses(cfg, s, x, ts, book);
    RowsAreTrue(cfg, s, full, Some(x), prev, last, last);
    CrossPruneIsOk(cfg, s, s1, x, current, last, full);
    CrossRecordIsOk(cfg, s1, FeedBook(cfg, s, x, ts, book).state, x, ts, book, full);
  }

  lemma FeedBooks(cfg: Config, s: State, x: Symbol, ts: nat, book: Orderbook, full: Books)
    requires cfg.period > 0 && BooksOk(cfg, s, full)
    requires !cfg.mode.OrderbookDriven? || cfg.delay == 0 || s.books.Keys <= {x}
    ensures var e := FeedBook(cfg, s, x, ts, book);
            && (forall r | r in e.rows :: TrueRow(cfg, full, r))
            && BooksOk(cfg, e.state, Recorded(full, x, ts / cfg.period, book))
            && e.state.books.Keys == s.books.Keys + {x}
  {
    if cfg.mode.OrderbookDriven? && x in s.lastPeriod && s.lastPeriod[x] < Ripe(cfg, ts) {
      CrossBooks(cfg, s, x, ts, book, full);
    } else {
      if Prompt(cfg) {
        PromptRecord(cfg, s, x, ts, book);
      }
      RecordIsOk(cfg, s, FeedBook(cfg, s, x, ts, book).state, full, x, ts / cfg.period, book);
    }
  }

  lemma EventBooks(cfg: Config, s: State, x: Event, full: Books)
    requires cfg.period > 0 && BooksOk(cfg, s, full)
    ensures var e := FeedEvent(cfg, s, x);
            (forall r | r in e.rows :: TrueRow(cfg, full, r)) && BooksOk(cfg, e.state, full)
            && e.state.books.Keys == s.books.Keys
  {
    var s' := s.(pending := s.pending + [x]);
    ClockMoveIsOk(cfg, s, s', full);
    if Drives(cfg.mode, x.kind) {
      AdvanceBooks(cfg, s', x.ts, full);
    }
  }

  lemma FinalizeBooks(cfg: Config, s: State, full: Books)
    requires Lawful(cfg) && Lists(cfg, s) && BooksOk(cfg, s, full) && !s.finalized
    ensures var e := Turn(cfg, s, Finalize);
            (forall r | r in e.rows :: TrueRow(cfg, full, r)) && BooksOk(cfg, e.state, full)
            && e.state.books == s.books
  {
    TerminalRowsCarry(cfg, s, cfg.order(s.lastPeriod.Keys));
    ClockMoveIsOk(cfg, s, Turn(cfg, s, Finalize).state, full);
  }

  lemma TurnBooks(cfg: Config, s: State, sole: Symbol, op: Op, full: Books)
    requires Lawful(cfg) && Lists(cfg, s) && Allowed(cfg, sole, op)
    requires BooksOk(cfg, s, full) && TracksSole(cfg, sole, s.books)
    ensures var e := Turn(cfg, s, op);
            var full' :=
              if !s.finalized && op.OnBook? then Recorded(full, op.symbol, op.ts / cfg.period, op.book) else full;
            && (forall r | r in e.rows :: TrueRow(cfg, full, r))
            && BooksOk(cfg, e.state, full') && TracksSole(cfg, sole, e.state.books)
  {
    if !s.finalized {
      match op {
        case OnTime(ts) =>
          if cfg.mode.ExternalClock? {
            AdvanceBooks(cfg, s, ts, full);
          }
        case OnBook(x, ts, book) => FeedBooks(cfg, s, x, ts, book, full);
        case OnEvent(e) => EventBooks(cfg, s, e, full);
        case Finalize => FinalizeBooks(cfg, s, full);
        case Drain => ClockMoveIsOk(cfg, s, Turn(cfg, s, op).state, full);
      }
    } else {
      ClockMoveIsOk(cfg, s, Turn(cfg, s, op).state, full);
    }
  }

  // ---------------------------------------------------------------------------
  // Whole runs
  // ---------------------------------------------------------------------------

  /** Every row closed by a clock carries what the full history of its symbol gave at the time. */
  ghost predicate AllTrue(cfg: Config, t: Trace) {
    forall seen | seen in t.rows :: TrueRow(cfg, seen.full, seen.row)
  }

  lemma ExtendTrueRows(cfg: Config, t: Trace, op: Op, e: Effect)
    requires cfg.period > 0 && (forall r | r in e.rows :: TrueRow(cfg, t.full, r)) && AllTrue(cfg, t)
    ensures AllTrue(cfg, Extend(cfg, t, op, e))
  {
    RowsOfWitnessed(e.rows, t.full);
  }

  /**
   Pruned history refines full history. Over every run with any number of symbols under a global clock
   or without a hold-back window, and with one symbol in every mode, each row closed by a clock carries
   the last-arrived book of the greatest period below it, as an unpruned history would give it, however
   late books arrive.
   */
  lemma {:induction false} PrunedRefinesFull(cfg: Config, sole: Symbol, ops: seq<Op>)
    requires Lawful(cfg) && forall op | op in ops :: Allowed(cfg, sole, op)
    ensures var t := Run(cfg, ops);
            AllTrue(cfg, t) && BooksOk(cfg, t.state, t.full) && TracksSole(cfg, sole, t.state.books)
  {
    if ops != [] {
      var init, op := ops[..|ops| - 1], ops[|ops| - 1];
      PrunedRefinesFull(cfg, sole, init);
      var t := Run(cfg, init);
      LawfulLists(cfg, t.state);
      TurnBooks(cfg, t.state, sole, op, t.full);
      ExtendTrueRows(cfg, t, op, Turn(cfg, t.state, op));
    }
  }

  // ---------------------------------------------------------------------------
  // Two symbols and a hold-back window
  // ---------------------------------------------------------------------------

  lemma BookSnoc(cfg: Config, ops: seq<Op>, x: Symbol, ts: nat, book: Orderbook)
    requires Lawful(cfg) && !Run(cfg, ops).state.finalized
    ensures var t := Run(cfg, ops); var e := FeedBook(cfg, t.state, x, ts, book);
            var t' := Run(cfg, ops + [OnBook(x, ts, book)]);
            && t'.state == e.state && t'.rows == t.rows + Witnessed(e.rows, t.full)
            && t'.full == Recorded(t.full, x, ts / cfg.period, book)
  {
    assert (ops + [OnBook(x, ts, book)])[..|ops|] == ops;
    LawfulLists(cfg, Run(cfg, ops).state);
  }

  /** The ripe periods of the run below. */
  lemma RipePeriods(cfg: Config)
    requires cfg.period > 0 && cfg.delay > 0
    ensures Ripe(cfg, 0) == 0 && Ripe(cfg, cfg.period) == 0
    ensures Ripe(cfg, 2 * cfg.period + cfg.delay) == 2 && Ripe(cfg, cfg.period + cfg.delay) == 1
    ensures 0 / cfg.period == 0 && cfg.period / cfg.period == 1
  {
    assert (2 * cfg.period) / cfg.period == 2;
  }

  /** Two books of a symbol whose clock has not moved yet. */
  ghost predicate Lagging(s: State, full: Books, a: Orderbook, b: Orderbook) {
    && !s.finalized && "A" in s.lastPeriod && s.lastPeriod["A"] == 0
    && "A" in full && full["A"] == map[0 := a, 1 := b]
  }

  ghost function FirstTwo(cfg: Config, a: Orderbook, b: Orderbook): seq<Op> {
    [OnBook("A", 0, a)] + [OnBook("A", cfg.period, b)]
  }

  lemma TwoBooks(cfg: Config, a: Orderbook, b: Orderbook)
    requires Lawful(cfg) && cfg.mode.OrderbookDriven? && cfg.delay > 0
    ensures var t := Run(cfg, FirstTwo(cfg, a, b));
            && Lagging(t.state, t.full, a, b) && "B" !in t.state.lastPeriod
            && t.state.books == map["A" := map[0 := a, 1 := b]]
  {
    RipePeriods(cfg);
    assert Run(cfg, []).state == FRESH && Run(cfg, []).full == map[];
    BookSnoc(cfg, [], "A", 0, a);
    assert [] + [OnBook("A", 0, a)] == [OnBook("A", 0, a)];
    var t := Run(cfg, [OnBook("A", 0, a)]);
    assert t.state.lastPeriod == map["A" := 0] && t.full == t.state.books == map["A" := map[0 := a]];
    BookSnoc(cfg, [OnBook("A", 0, a)], "A", cfg.period, b);
  }

  ghost function OtherTwo(cfg: Config, c: Orderbook): seq<Op> {
    [OnBook("B", 0, c)] + [OnBook("B", 2 * cfg.period + cfg.delay, c)]
  }

  lemma PruneDropsFirst(a: Orderbook, b: Orderbook)
    ensures Prune(map[0 := a, 1 := b], 2) == map[1 := b]
  {
    assert LastBelow(map[0 := a, 1 := b], 2) == Some(1);
  }

  ghost predicate HasBooks(t: Trace, m: BookHistory) {
    "A" in t.state.books && t.state.books["A"] == m
  }

  ghost predicate OtherAnchored(t: Trace) {
    "B" in t.state.lastPeriod && t.state.lastPeriod["B"] == 0
  }

  /** The other symbol's first book changes nothing of the lagging one. */
  lemma FirstOther(cfg: Config, t: Trace, t': Trace, a: Orderbook, b: Orderbook, c: Orderbook, m: BookHistory)
    requires cfg.period > 0 && cfg.mode.OrderbookDriven? && cfg.delay > 0
    requires Lagging(t.state, t.full, a, b) && "B" !in t.state.lastPeriod && HasBooks(t, m)
    requires t'.state == FeedBook(cfg, t.state, "B", 0, c).state && t'.full == Recorded(t.full, "B", 0 / cfg.period, c)
    ensures Lagging(t'.state, t'.full, a, b) && OtherAnchored(t') && HasBooks(t', m)
  {
    RipePeriods(cfg);
  }

  /** Its crossing drops the older book. */
  lemma SecondOther(
    cfg: Config, t: Trace, t': Trace, a: Orderbook, b: Orderbook, c: Orderbook, ts: nat)
    requires cfg.period > 0 && cfg.mode.OrderbookDriven? && Ripe(cfg, ts) == 2
    requires Lagging(t.state, t.full, a, b) && OtherAnchored(t) && HasBooks(t, map[0 := a, 1 := b])
    requires t'.state == FeedBook(cfg, t.state, "B", ts, c).state
    requires t'.full == Recorded(t.full, "B", ts / cfg.period, c)
    ensures Lagging(t'.state, t'.full, a, b) && HasBooks(t', map[1 := b])
  {
    FeedCrosses(cfg, t.state, "B", ts, c);
    PruneDropsFirst(a, b);
  }

  lemma OtherTwoPrune(cfg: Config, a: Orderbook, b: Orderbook, c: Orderbook)
    requires Lawful(cfg) && cfg.mode.OrderbookDriven? && cfg.delay > 0
    ensures var t := Run(cfg, FirstTwo(cfg, a, b) + OtherTwo(cfg, c));
            Lagging(t.state, t.full, a, b) && HasBooks(t, map[1 := b])
  {
    var first, ts := FirstTwo(cfg, a, b), 2 * cfg.period + cfg.delay;
    var ops := first + [OnBook("B", 0, c)];
    TwoBooks(cfg, a, b);
    BookSnoc(cfg, first, "B", 0, c);
    FirstOther(cfg, Run(cfg, first), Run(cfg, ops), a, b, c, map[0 := a, 1 := b]);
    CrossingPrunes(cfg, ops, a, b, c, ts);
    assert ops + [OnBook("B", ts, c)] == first + OtherTwo(cfg, c);
  }

  lemma CrossingPrunes(cfg: Config, ops: seq<Op>, a: Orderbook, b: Orderbook, c: Orderbook, ts: nat)
    requires Lawful(cfg) && cfg.mode.OrderbookDriven? && cfg.delay > 0 && ts == 2 * cfg.period + cfg.delay
    requires var t := Run(cfg, ops);
             Lagging(t.state, t.full, a, b) && OtherAnchored(t) && HasBooks(t, map[0 := a, 1 := b])
    ensures var t := Run(cfg, ops + [OnBook("B", ts, c)]); Lagging(t.state, t.full, a, b) && HasBooks(t, map[1 := b])
  {
    RipePeriods(cfg);
    BookSnoc(cfg, ops, "B", ts, c);
    SecondOther(cfg, Run(cfg, ops), Run(cfg, ops + [OnBook("B", ts, c)]), a, b, c, ts);
  }

  /** The lagging symbol's next book closes its row 1 with what its pruned history gives. */
  lemma LaggingRow(cfg: Config, ops: seq<Op>, a: Orderbook, b: Orderbook)
    requires Lawful(cfg) && cfg.mode.OrderbookDriven? && cfg.delay > 0
    requires var t := Run(cfg, ops); Lagging(t.state, t.full, a, b) && "A" in t.state.books
    ensures LagSeen(Run(cfg, ops), Run(cfg, ops + [OnBook("A", cfg.period + cfg.delay, b)]), a)
  {
    var t, ts := Run(cfg, ops), cfg.period + cfg.delay;
    BookSnoc(cfg, ops, "A", ts, b);
    LaggingFeed(cfg, t.state, b);
    LaggingSeen(t, Run(cfg, ops + [OnBook("A", ts, b)]), FeedBook(cfg, t.state, "A", ts, b).rows, a, b);
  }

  lemma LaggingSeen(t: Trace, t': Trace, rows: seq<Row>, a: Orderbook, b: Orderbook)
    requires Lagging(t.state, t.full, a, b) && "A" in t.state.books && t'.rows == t.rows + Witnessed(rows, t.full)
    requires |rows| == 1 && rows[0].symbol == Some("A") && rows[0].number == 1 && !rows[0].terminal
    requires rows[0].snapshot.orderbook == AsOf(t.state.books["A"], 1)
    ensures LagSeen(t, t', a)
  {
    RowsOfWitnessed(rows, t.full);
    assert LastBelow(map[0 := a, 1 := b], 1) == Some(0);
  }

  /** The last row seen is row 1 of the lagging symbol, with what its pruned history gives. */
  ghost predicate LagSeen(t: Trace, t': Trace, a: Orderbook) {
    && |t'.rows| > 0 && "A" in t.state.books
    && var seen := t'.rows[|t'.rows| - 1];
       && seen.row.symbol == Some("A") && seen.row.number == 1 && !seen.row.terminal
       && seen.row.snapshot.orderbook == AsOf(t.state.books["A"], 1) && AsOfBook(seen.full, "A", 1) == Some(a)
  }

  lemma LaggingFeed(cfg: Config, s: State, b: Orderbook)
    requires Lawful(cfg) && cfg.mode.OrderbookDriven? && cfg.delay > 0
    requires "A" in s.lastPeriod && s.lastPeriod["A"] == 0 && "A" in s.books
    ensures var rows := FeedBook(cfg, s, "A", cfg.period + cfg.delay, b).rows;
            && |rows| == 1 && rows[0].symbol == Some("A") && rows[0].number == 1 && !rows[0].terminal
            && rows[0].snapshot.orderbook == AsOf(s.books["A"], 1)
  {
    RipePeriods(cfg);
    RowAt(cfg, s, Some("A"), 0, 1, 1);
  }

  /**
   For every period and every hold-back window, one symbol's crossing prunes the book another symbol's
   next row needs. Alone, that row carries the book; with the other symbol's two books in between it
   carries none, and so it is not true.
   */
  lemma OtherSymbolPrunes(cfg: Config, a: Orderbook, b: Orderbook, c: Orderbook)
    requires Lawful(cfg) && cfg.mode.OrderbookDriven? && cfg.delay > 0
    ensures var first, last := FirstTwo(cfg, a, b), [OnBook("A", cfg.period + cfg.delay, b)];
            var alone := Run(cfg, first + last).rows;
            var both := Run(cfg, first + OtherTwo(cfg, c) + last);
            && |alone| > 0 && |both.rows| > 0
            && alone[|alone| - 1].row.number == both.rows[|both.rows| - 1].row.number == 1
            && alone[|alone| - 1].row.snapshot.orderbook == Some(a)
            && both.rows[|both.rows| - 1].row.snapshot.orderbook == None
            && !AllTrue(cfg, both)
  {
    var first := FirstTwo(cfg, a, b);
    TwoBooks(cfg, a, b);
    LaggingRow(cfg, first, a, b);
    assert LastBelow(map[0 := a, 1 := b], 1) == Some(0);
    OtherTwoPrune(cfg, a, b, c);
    LaggingRow(cfg, first + OtherTwo(cfg, c), a, b);
    assert LastBelow(map[1 := b], 1) == None;
    var both := Run(cfg, first + OtherTwo(cfg, c) + [OnBook("A", cfg.period + cfg.delay, b)]);
    assert !TrueRow(cfg, both.rows[|both.rows| - 1].full, both.rows[|both.rows| - 1].row);
  }

  /**
   The refinement holds over all runs if and only if the clock is global or there is no hold-back window:
   what a caller can read off the configuration.
   */
  lemma RefinesIff(cfg: Config)
    requires Lawful(cfg)
    ensures (forall ops :: AllTrue(cfg, Run(cfg, ops))) <==> !cfg.mode.OrderbookDriven? || cfg.delay == 0
  {
    if !cfg.mode.OrderbookDriven? || cfg.delay == 0 {
      forall ops
        ensures AllTrue(cfg, Run(cfg, ops))
      {
        PrunedRefinesFull(cfg, "", ops);
      }
    } else {
      var book := Orderbook(0, 0);
      OtherSymbolPrunes(cfg, book, book, book);
    }
  }
}
