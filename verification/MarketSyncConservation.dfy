/**
 Conservation over whole runs of the synchronizer: every accepted event ends in exactly one place.
 */
module MarketSyncConservation {
  import opened Wrappers
  import opened MarketSync
  import opened MarketSyncTrace

  /** The counters and buffers tell the truth about what happened. */
  ghost predicate Accounted(t: Trace) {
    && t.drained + t.state.buffer == Snapshots(Rows(t.rows))
    && t.state.totalCaptured == |t.rows|
    && t.state.lateDropped == |t.late| + t.rejected
    && forall e | e in t.late :: !e.kind.FundingSettlement?
  }

  /** Each accepted event is in exactly one row, still pending, or late. */
  ghost predicate Conserved(t: Trace) {
    multiset(t.accepted) == Carried(Rows(t.rows)) + multiset(t.state.pending) + multiset(t.late)
  }

  /** Rows that all carry the same events carry each of them once per row. */
  lemma {:induction false} CarriedCopies(rows: seq<Row>, es: seq<Event>, x: Event)
    requires forall r | r in rows :: r.snapshot.events == es
    ensures Carried(rows)[x] == |rows| * multiset(es)[x]
  {
    if rows != [] {
      CarriedCopies(rows[..|rows| - 1], es, x);
      assert rows[|rows| - 1] in rows;
      OneMore(|rows| - 1, multiset(es)[x]);
    }
  }

  lemma OneMore(n: nat, k: nat)
    ensures n * k + k == (n + 1) * k
  {}

  ghost predicate Accounts(s: State, op: Op, e: Effect) {
    && e.state.buffer == (if op.Drain? then [] else s.buffer + Snapshots(e.rows))
    && e.state.totalCaptured == s.totalCaptured + |e.rows|
    && e.state.lateDropped == s.lateDropped + |e.late| + (if s.finalized && !op.Finalize? && !op.Drain? then 1 else 0)
    && (forall x | x in e.late :: !x.kind.FundingSettlement?)
    && (op.Drain? ==> e.rows == [])
  }

  /** The event this call adds. */
  ghost function Added(s: State, op: Op): seq<Event> {
    if !s.finalized && op.OnEvent? then [op.event] else []
  }

  ghost predicate Balances(s: State, op: Op, e: Effect) {
    multiset(s.pending + Added(s, op)) == Carried(e.rows) + multiset(e.state.pending) + multiset(e.late)
  }

  /** The counters move with the rows and the late events of each call. */
  lemma TurnAccounts(cfg: Config, s: State, op: Op)
    requires cfg.period > 0 && Lists(cfg, s)
    ensures Accounts(s, op, Turn(cfg, s, op))
  {
    if s.finalized {
      assert s.buffer + [] == s.buffer;
    } else {
      match op {
        case OnTime(ts) => AdvanceAccounts(cfg, s, ts);
        case OnBook(x, ts, book) =>
          assert s.buffer + [] == s.buffer;
          if cfg.mode.OrderbookDriven? && x in s.lastPeriod && s.lastPeriod[x] < Ripe(cfg, ts) {
            CrossConserves(cfg, s, Some(x), s.lastPeriod[x], Ripe(cfg, ts));
          }
        case OnEvent(e) => AdvanceAccounts(cfg, s.(pending := s.pending + [e]), e.ts);
        case Finalize =>
          if cfg.mode.OrderbookDriven? {
            TerminalRowsCarry(cfg, s, cfg.order(s.lastPeriod.Keys));
          } else if s.clockPeriod.Some? {
            var row := FinalizeGlobalClock(cfg, s).rows[0];
            assert [row][..0] == [] && Snapshots([row]) == [row.snapshot];
          } else {
            assert s.buffer + [] == s.buffer;
          }
        case Drain =>
      }
    }
  }

  lemma AdvanceAccounts(cfg: Config, s: State, ts: nat)
    requires cfg.period > 0
    ensures var e := AdvanceGrid(cfg, s, ts);
            && multiset(s.pending) == Carried(e.rows) + multiset(e.state.pending) + multiset(e.late)
            && e.state.buffer == s.buffer + Snapshots(e.rows)
            && e.state.totalCaptured == s.totalCaptured + |e.rows|
            && e.state.lateDropped == s.lateDropped + |e.late|
            && e.state.finalized == s.finalized
            && forall x | x in e.late :: !x.kind.FundingSettlement?
    ensures s.buffer + Snapshots([]) == s.buffer
  {
    if s.clockPeriod.Some? && s.clockPeriod.value < Ripe(cfg, ts) {
      CrossConserves(cfg, s, None, s.clockPeriod.value, Ripe(cfg, ts));
    }
  }

  lemma BookConserves(cfg: Config, s: State, x: Symbol, ts: nat, book: Orderbook)
    requires cfg.period > 0
    ensures var e := FeedBook(cfg, s, x, ts, book);
            multiset(s.pending) == Carried(e.rows) + multiset(e.state.pending) + multiset(e.late)
  {
    if cfg.mode.OrderbookDriven? && x in s.lastPeriod && s.lastPeriod[x] < Ripe(cfg, ts) {
      CrossConserves(cfg, s, Some(x), s.lastPeriod[x], Ripe(cfg, ts));
    }
  }

  lemma EventConserves(cfg: Config, s: State, x: Event)
    requires cfg.period > 0
    ensures var e := FeedEvent(cfg, s, x);
            multiset(s.pending + [x]) == Carried(e.rows) + multiset(e.state.pending) + multiset(e.late)
  {
    if Drives(cfg.mode, x.kind) {
      AdvanceAccounts(cfg, s.(pending := s.pending + [x]), x.ts);
    }
  }

  lemma GlobalFinalizeConserves(cfg: Config, s: State)
    requires cfg.period > 0
    ensures var e := FinalizeGlobalClock(cfg, s);
            multiset(s.pending) == Carried(e.rows) + multiset(e.state.pending) + multiset(e.late)
  {
    if s.clockPeriod.Some? {
      var row := FinalizeGlobalClock(cfg, s).rows[0];
      assert [row][..0] == [] && Carried([row]) == multiset(s.pending);
    }
  }

  /** What one call does to the events, for every call but the per-symbol finalize. */
  lemma TurnConserves(cfg: Config, s: State, op: Op)
    requires cfg.period > 0 && Lists(cfg, s)
    requires !(op.Finalize? && cfg.mode.OrderbookDriven? && !s.finalized)
    ensures Balances(s, op, Turn(cfg, s, op))
  {
    assert s.pending + [] == s.pending;
    if !s.finalized {
      match op {
        case OnTime(ts) => AdvanceAccounts(cfg, s, ts);
        case OnBook(x, ts, book) => BookConserves(cfg, s, x, ts, book);
        case OnEvent(e) => EventConserves(cfg, s, e);
        case Finalize => GlobalFinalizeConserves(cfg, s);
        case Drain =>
      }
    }
  }

  /** The rows of a trace after one more call. */
  lemma ExtendRows(cfg: Config, t: Trace, op: Op, e: Effect)
    requires cfg.period > 0
    ensures var t' := Extend(cfg, t, op, e);
            && Rows(t'.rows) == Rows(t.rows) + e.rows
            && |t'.rows| == |t.rows| + |e.rows|
            && Snapshots(Rows(t'.rows)) == Snapshots(Rows(t.rows)) + Snapshots(e.rows)
            && Carried(Rows(t'.rows)) == Carried(Rows(t.rows)) + Carried(e.rows)
  {
    RowsOfWitnessed(e.rows, t.full);
    RowsConcat(t.rows, Witnessed(e.rows, t.full));
    SnapshotsConcat(Rows(t.rows), e.rows);
    CarriedConcat(Rows(t.rows), e.rows);
  }

  lemma ExtendKeepsAccounts(cfg: Config, t: Trace, op: Op, e: Effect)
    requires cfg.period > 0 && Accounted(t) && Accounts(t.state, op, e)
    ensures Accounted(Extend(cfg, t, op, e))
  {
    ExtendRows(cfg, t, op, e);
    var t' := Extend(cfg, t, op, e);
    DrainedAndBuffered(t.drained, t.state.buffer, Snapshots(e.rows));
    assert t'.drained + t'.state.buffer == (t.drained + t.state.buffer) + Snapshots(e.rows);
    assert t'.late == t.late + e.late;
  }

  lemma DrainedAndBuffered(drained: seq<MarketSnapshot>, buffer: seq<MarketSnapshot>, more: seq<MarketSnapshot>)
    ensures drained + (buffer + more) == (drained + buffer) + more
    ensures (drained + buffer) + [] == drained + buffer
  {}

  lemma ExtendConserves(cfg: Config, t: Trace, op: Op, e: Effect)
    requires cfg.period > 0 && Balances(t.state, op, e)
    ensures Conserved(t) <==> Conserved(Extend(cfg, t, op, e))
  {
    ExtendRows(cfg, t, op, e);
    var added := Added(t.state, op);
    assert Extend(cfg, t, op, e).accepted == t.accepted + added;
    assert multiset(t.accepted + added) == multiset(t.accepted) + multiset(added);
    assert multiset(t.state.pending + added) == multiset(t.state.pending) + multiset(added);
    assert multiset(t.late + e.late) == multiset(t.late) + multiset(e.late);
    Balance(
      multiset(t.accepted), multiset(added), Carried(Rows(t.rows)), multiset(t.state.pending), multiset(t.late),
      Carried(e.rows), multiset(e.state.pending), multiset(e.late));
  }

  lemma ObserveConserves(cfg: Config, t: Trace, op: Op)
    requires Lawful(cfg)
    requires !(op.Finalize? && cfg.mode.OrderbookDriven? && !t.state.finalized)
    ensures Conserved(t) <==> Conserved(Observe(cfg, t, op))
  {
    LawfulLists(cfg, t.state);
    TurnConserves(cfg, t.state, op);
    ExtendConserves(cfg, t, op, Turn(cfg, t.state, op));
  }

  lemma OnlyFinalizeFinalizes(cfg: Config, s: State, op: Op)
    requires cfg.period > 0 && Lists(cfg, s)
    ensures Turn(cfg, s, op).state.finalized == (s.finalized || op.Finalize?)
  {}

  lemma Balance(
    accepted: multiset<Event>, added: multiset<Event>, rows: multiset<Event>, pending: multiset<Event>,
    late: multiset<Event>,
    rows': multiset<Event>, pending': multiset<Event>, late': multiset<Event>)
    requires pending + added == rows' + pending' + late'
    ensures accepted == rows + pending + late <==> accepted + added == (rows + rows') + pending' + (late + late')
  {
    var whole := rows + pending + late;
    assert (rows + rows') + pending' + (late + late') == whole + added by {
      forall x: Event
        ensures ((rows + rows') + pending' + (late + late'))[x] == (whole + added)[x]
      {
        assert (pending + added)[x] == (rows' + pending' + late')[x];
      }
    }
    if accepted + added == whole + added {
      assert accepted == (accepted + added) - added && whole == (whole + added) - added;
    }
  }

  // ---------------------------------------------------------------------------
  // Whole runs
  // ---------------------------------------------------------------------------

  /** In every run the counters are exact and no settlement is ever dropped. */
  lemma {:induction false} RunIsAccounted(cfg: Config, ops: seq<Op>)
    requires Lawful(cfg)
    ensures Accounted(Run(cfg, ops))
  {
    if ops != [] {
      RunIsAccounted(cfg, ops[..|ops| - 1]);
      var t, op := Run(cfg, ops[..|ops| - 1]), ops[|ops| - 1];
      LawfulLists(cfg, t.state);
      TurnAccounts(cfg, t.state, op);
      ExtendKeepsAccounts(cfg, t, op, Turn(cfg, t.state, op));
    }
  }

  /** Conservation, in every mode until `finalize`, and through it when one clock drives all. */
  lemma {:induction false} RunConserves(cfg: Config, ops: seq<Op>)
    requires Lawful(cfg) && (cfg.mode.OrderbookDriven? ==> Finalize !in ops)
    ensures Conserved(Run(cfg, ops))
    ensures Finalize !in ops ==> !Run(cfg, ops).state.finalized
  {
    if ops != [] {
      var init := ops[..|ops| - 1];
      var t, op := Run(cfg, init), ops[|ops| - 1];
      RunConserves(cfg, init);
      LawfulLists(cfg, t.state);
      OnlyFinalizeFinalizes(cfg, t.state, op);
      ObserveConserves(cfg, t, op);
    }
  }

  /**
   Finalizing a book-driven run keeps every event in exactly one place if and only if exactly one
   symbol is tracked or nothing is pending: with none the pending events are lost, with several
   each of them is copied into every terminal row.
   */
  lemma FinalizeConservesIff(cfg: Config, ops: seq<Op>)
    requires Lawful(cfg) && cfg.mode.OrderbookDriven? && Finalize !in ops
    ensures var t := Run(cfg, ops);
            Conserved(Run(cfg, ops + [Finalize])) <==> |t.state.lastPeriod| == 1 || t.state.pending == []
  {
    var t := Run(cfg, ops);
    assert (ops + [Finalize])[..|ops|] == ops;
    RunConserves(cfg, ops);
    LawfulLists(cfg, t.state);
    FinalizeTurn(cfg, t);
    var e := FinalizeOrderbookDriven(cfg, t.state);
    assert Run(cfg, ops + [Finalize]) == Extend(cfg, t, Finalize, e);
    ExtendRows(cfg, t, Finalize, e);
    assert t.late + [] == t.late;
    CopiesBalance(
      multiset(t.accepted), Carried(Rows(t.rows)), multiset(t.state.pending), multiset(t.late), Carried(e.rows));
  }

  lemma FinalizeTurn(cfg: Config, t: Trace)
    requires Lawful(cfg) && Lists(cfg, t.state)
    ensures Carried(FinalizeOrderbookDriven(cfg, t.state).rows) == multiset(t.state.pending)
            <==> |t.state.lastPeriod| == 1 || t.state.pending == []
  {
    var s := t.state;
    var symbols := cfg.order(s.lastPeriod.Keys);
    var rows := TerminalRows(cfg, s, symbols);
    TerminalRowsCarry(cfg, s, symbols);
    assert |symbols| == |multiset(symbols)| == |multiset(s.lastPeriod.Keys)| == |s.lastPeriod|;
    CopiesAgree(rows, s.pending);
  }

  /** Copies of the same events add up to one copy exactly when there is one, or nothing to copy. */
  lemma CopiesAgree(rows: seq<Row>, es: seq<Event>)
    requires forall r | r in rows :: r.snapshot.events == es
    ensures Carried(rows) == multiset(es) <==> |rows| == 1 || es == []
  {
    if es == [] {
      forall x: Event
        ensures Carried(rows)[x] == 0
      {
        CarriedCopies(rows, es, x);
        assert multiset(es)[x] == 0;
      }
    } else if |rows| == 1 {
      assert rows[0] in rows && rows[..0] == [];
    } else {
      CarriedCopies(rows, es, es[0]);
      CopyCount(|rows|, multiset(es)[es[0]]);
    }
  }

  lemma CopyCount(n: nat, k: nat)
    requires k > 0
    ensures n * k == k <==> n == 1
  {
    if n == 0 {
    } else if n >= 2 {
      assert n * k == (n - 2) * k + 2 * k;
    }
  }

  lemma CopiesBalance(
    accepted: multiset<Event>, rows: multiset<Event>, pending: multiset<Event>, late: multiset<Event>,
    copies: multiset<Event>)
    requires accepted == rows + pending + late
    ensures accepted == (rows + copies) + multiset{} + late <==> copies == pending
  {
    if accepted == (rows + copies) + multiset{} + late {
      forall x: Event
        ensures copies[x] == pending[x]
      {
        assert accepted[x] == rows[x] + pending[x] + late[x];
        assert ((rows + copies) + multiset{} + late)[x] == rows[x] + copies[x] + late[x];
      }
    }
  }

  /** Nothing that happens after `finalize` moves an event. */
  lemma AfterFinalizeNothingMoves(cfg: Config, ops: seq<Op>, more: seq<Op>)
    requires Lawful(cfg) && Run(cfg, ops).state.finalized
    ensures var t, t' := Run(cfg, ops), Run(cfg, ops + more);
            Unmoved(t, t') && (Conserved(t) <==> Conserved(t'))
  {
    AfterFinalizeUnmoved(cfg, ops, more);
    UnmovedConserves(Run(cfg, ops), Run(cfg, ops + more));
  }

  /** The later trace is finalized and has every event and row where the earlier one had it. */
  ghost predicate Unmoved(t: Trace, t': Trace) {
    && t'.state.finalized && t'.rows == t.rows && t'.late == t.late && t'.accepted == t.accepted
    && t'.state.pending == t.state.pending
  }

  lemma UnmovedConserves(t: Trace, t': Trace)
    requires Unmoved(t, t')
    ensures Conserved(t) <==> Conserved(t')
  {}

  lemma {:induction false} AfterFinalizeUnmoved(cfg: Config, ops: seq<Op>, more: seq<Op>)
    requires Lawful(cfg) && Run(cfg, ops).state.finalized
    ensures Unmoved(Run(cfg, ops), Run(cfg, ops + more))
  {
    if more == [] {
      assert ops + more == ops;
    } else {
      var init, op := more[..|more| - 1], more[|more| - 1];
      AfterFinalizeUnmoved(cfg, ops, init);
      assert (ops + more)[..|ops + more| - 1] == ops + init;
      FinalizedTurn(cfg, Run(cfg, ops + init), op);
    }
  }

  lemma FinalizedTurn(cfg: Config, t: Trace, op: Op)
    requires Lawful(cfg) && t.state.finalized
    ensures Unmoved(t, Observe(cfg, t, op))
  {
    LawfulLists(cfg, t.state);
    var e := Turn(cfg, t.state, op);
    assert e.rows == [] && e.late == [];
    assert t.rows + [] == t.rows && t.late + [] == t.late;
  }
}
