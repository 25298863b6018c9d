/**
 Whole runs of the synchronizer, observed from outside: what went in, what came out, what was
 dropped, and the book history as it would be had nothing ever been pruned.
 */
module MarketSyncTrace {
  import opened Wrappers
  import opened MarketSync

  /** A row, with the unpruned history at the moment it was emitted. */
  datatype Seen = Seen(row: Row, full: map<Symbol, BookHistory>)

  datatype Trace = Trace(
    state: State,
    rows: seq<Seen>,
    late: seq<Event>,
    accepted: seq<Event>,
    rejected: nat,
    drained: seq<MarketSnapshot>,
    full: map<Symbol, BookHistory>,
    driven: Option<nat>,
    capped: bool)

  const START := Trace(FRESH, [], [], [], 0, [], map[], None, false)

  function Witnessed(rows: seq<Row>, full: map<Symbol, BookHistory>): seq<Seen> {
    if rows == [] then [] else Witnessed(rows[..|rows| - 1], full) + [Seen(rows[|rows| - 1], full)]
  }

  /** The timestamp this call drives the clock with, if it does. */
  function DrivingTs(cfg: Config, op: Op): Option<nat> {
    match op
    case OnTime(ts) => if cfg.mode.ExternalClock? then Some(ts) else None
    case OnBook(_, ts, _) => if cfg.mode.OrderbookDriven? then Some(ts) else None
    case OnEvent(e) =>
      if (cfg.mode.TradeDriven? && e.kind.Trade?) || (cfg.mode.LiquidationDriven? && e.kind.Liquidation?)
      then Some(e.ts) else None
    case _ => None
  }

  function Later(a: Option<nat>, b: Option<nat>): Option<nat> {
    if b.None? then a else if a.None? || a.value < b.value then b else a
  }

  lemma LawfulLists(cfg: Config, s: State)
    requires Lawful(cfg)
    ensures Lists(cfg, s)
  {
    var ks := s.lastPeriod.Keys;
    forall x | x in cfg.order(ks)
      ensures x in s.lastPeriod
    {
      assert x in multiset(cfg.order(ks));
    }
  }

  /** A trace extended by one call and its effect. */
  ghost function Extend(cfg: Config, t: Trace, op: Op, e: Effect): Trace
    requires cfg.period > 0
  {
    var open := !t.state.finalized;
    Trace(
      e.state,
      t.rows + Witnessed(e.rows, t.full),
      t.late + e.late,
      if open && op.OnEvent? then t.accepted + [op.event] else t.accepted,
      if open || op.Finalize? || op.Drain? then t.rejected else t.rejected + 1,
      if op.Drain? then t.drained + t.state.buffer else t.drained,
      if open && op.OnBook? then Recorded(t.full, op.symbol, op.ts / cfg.period, op.book) else t.full,
      if open then Later(t.driven, DrivingTs(cfg, op)) else t.driven,
      t.capped || e.capped)
  }

  ghost function Observe(cfg: Config, t: Trace, op: Op): Trace
    requires Lawful(cfg)
  {
    LawfulLists(cfg, t.state);
    Extend(cfg, t, op, Turn(cfg, t.state, op))
  }

  ghost function Run(cfg: Config, ops: seq<Op>): Trace
    requires Lawful(cfg)
  {
    if ops == [] then START else Observe(cfg, Run(cfg, ops[..|ops| - 1]), ops[|ops| - 1])
  }

  ghost function Rows(seen: seq<Seen>): seq<Row> {
    if seen == [] then [] else Rows(seen[..|seen| - 1]) + [seen[|seen| - 1].row]
  }

  /** Every event carried by some rows, with multiplicity. */
  ghost function Carried(rows: seq<Row>): multiset<Event> {
    if rows == [] then multiset{} else Carried(rows[..|rows| - 1]) + multiset(rows[|rows| - 1].snapshot.events)
  }

  lemma {:induction false} RowsOfWitnessed(rows: seq<Row>, full: map<Symbol, BookHistory>)
    ensures Rows(Witnessed(rows, full)) == rows
    ensures |Witnessed(rows, full)| == |rows|
    ensures forall i | 0 <= i < |rows| :: Witnessed(rows, full)[i] == Seen(rows[i], full)
  {
    if rows != [] {
      RowsOfWitnessed(rows[..|rows| - 1], full);
      var w := Witnessed(rows, full);
      assert w[..|w| - 1] == Witnessed(rows[..|rows| - 1], full);
    }
  }

  lemma {:induction false} RowsConcat(a: seq<Seen>, b: seq<Seen>)
    ensures Rows(a + b) == Rows(a) + Rows(b)
  {
    if b == [] {
      assert a + b == a;
    } else {
      assert (a + b)[..|a + b| - 1] == a + b[..|b| - 1];
      RowsConcat(a, b[..|b| - 1]);
    }
  }

  lemma {:induction false} CarriedConcat(a: seq<Row>, b: seq<Row>)
    ensures Carried(a + b) == Carried(a) + Carried(b)
  {
    if b == [] {
      assert a + b == a;
    } else {
      assert (a + b)[..|a + b| - 1] == a + b[..|b| - 1];
      CarriedConcat(a, b[..|b| - 1]);
    }
  }

  lemma {:induction false} SnapshotsConcat(a: seq<Row>, b: seq<Row>)
    ensures Snapshots(a + b) == Snapshots(a) + Snapshots(b)
  {
    if b == [] {
      assert a + b == a;
    } else {
      assert (a + b)[..|a + b| - 1] == a + b[..|b| - 1];
      SnapshotsConcat(a, b[..|b| - 1]);
    }
  }

  lemma {:induction false} SnapshotsLength(a: seq<Row>)
    ensures |Snapshots(a)| == |a|
  {
    if a != [] {
      SnapshotsLength(a[..|a| - 1]);
    }
  }

  // ---------------------------------------------------------------------------
  // One crossing
  // ---------------------------------------------------------------------------

  /** Everything in the bundles of rows (prev, upTo]. */
  ghost function Gather(bundle: nat -> seq<Event>, prev: nat, upTo: nat): multiset<Event> {
    if upTo <= prev then multiset{} else Gather(bundle, prev, upTo - 1) + multiset(bundle(upTo))
  }

  ghost function Bundles(period: nat, prev: nat, last: nat, es: seq<Event>): nat -> seq<Event>
    requires period > 0
  {
    (p: nat) => Routed(period, prev, last, es, ToRow(p))
  }

  ghost function Placed(period: nat, prev: nat, last: nat, es: seq<Event>, upTo: nat): multiset<Event>
    requires period > 0
  {
    Gather(Bundles(period, prev, last, es), prev, upTo)
  }

  lemma RoutedSnoc(period: nat, prev: nat, last: nat, es: seq<Event>, e: Event, d: Dest)
    requires period > 0
    ensures Routed(period, prev, last, es + [e], d)
            == Routed(period, prev, last, es, d) + if Route(period, prev, last, e) == d then [e] else []
  {
    assert (es + [e])[..|es|] == es;
  }

  /** Adding one more element to a part, or none, adds it to the whole. */
  lemma Regroup(rest: multiset<Event>, part: seq<Event>, e: Event, added: bool, other: multiset<Event>)
    ensures (rest + other) + multiset(part + if added then [e] else [])
            == (rest + multiset(part)) + (other + if added then multiset{e} else multiset{})
  {
    assert part + [] == part;
  }

  /** An event's share of the rows in (prev, upTo], given where it was routed. */
  ghost function RowShare(e: Event, d: Dest, prev: nat, upTo: nat): multiset<Event> {
    if d.ToRow? && prev < d.p <= upTo then multiset{e} else multiset{}
  }

  lemma {:induction false} GatherSnoc(
    f: nat -> seq<Event>, g: nat -> seq<Event>, e: Event, d: Dest, prev: nat, upTo: nat)
    requires forall p: nat :: g(p) == f(p) + if d == ToRow(p) then [e] else []
    ensures Gather(g, prev, upTo) == Gather(f, prev, upTo) + RowShare(e, d, prev, upTo)
  {
    if prev < upTo {
      GatherSnoc(f, g, e, d, prev, upTo - 1);
      var a, s, t := Gather(f, prev, upTo - 1), RowShare(e, d, prev, upTo - 1), RowShare(e, d, prev, upTo);
      var part := g(upTo);
      assert part == f(upTo) + if d == ToRow(upTo) then [e] else [];
      Regroup(a, f(upTo), e, d == ToRow(upTo), s);
      assert t == s + if d == ToRow(upTo) then multiset{e} else multiset{} by {
        ShareStep(e, d, prev, upTo);
      }
      assert Gather(g, prev, upTo) == (a + s) + multiset(part);
    }
  }

  lemma ShareStep(e: Event, d: Dest, prev: nat, upTo: nat)
    requires prev < upTo
    ensures RowShare(e, d, prev, upTo)
            == RowShare(e, d, prev, upTo - 1) + if d == ToRow(upTo) then multiset{e} else multiset{}
  {}

  lemma PlacedSnoc(period: nat, prev: nat, last: nat, es: seq<Event>, e: Event, d: Dest, upTo: nat)
    requires period > 0 && d == Route(period, prev, last, e)
    ensures Placed(period, prev, last, es + [e], upTo) == Placed(period, prev, last, es, upTo)
            + RowShare(e, d, prev, upTo)
  {
    var f, g := Bundles(period, prev, last, es), Bundles(period, prev, last, es + [e]);
    forall p: nat
      ensures g(p) == f(p) + if d == ToRow(p) then [e] else []
    {
      RoutedSnoc(period, prev, last, es, e, ToRow(p));
    }
    GatherSnoc(f, g, e, d, prev, upTo);
  }

  lemma RouteInRange(period: nat, prev: nat, last: nat, e: Event)
    requires period > 0
    ensures var d := Route(period, prev, last, e); d.ToRow? ==> prev < d.p <= last
  {}

  /** A crossing splits the pending events: each goes to one row, stays, or is late. */
  lemma {:induction false} Partition(period: nat, prev: nat, last: nat, es: seq<Event>)
    requires period > 0
    ensures Partitioned(period, prev, last, es)
    decreases |es|
  {
    if es == [] {
      NothingGathered(Bundles(period, prev, last, es), prev, last);
    } else {
      Partition(period, prev, last, es[..|es| - 1]);
      PartitionStep(period, prev, last, es[..|es| - 1], es[|es| - 1]);
      assert es == es[..|es| - 1] + [es[|es| - 1]];
    }
  }

  ghost predicate Partitioned(period: nat, prev: nat, last: nat, es: seq<Event>)
    requires period > 0
  {
    multiset(es) == Placed(period, prev, last, es, last)
                    + multiset(Routed(period, prev, last, es, Keep))
                    + multiset(Routed(period, prev, last, es, Late))
  }

  lemma PartitionStep(period: nat, prev: nat, last: nat, init: seq<Event>, e: Event)
    requires period > 0 && Partitioned(period, prev, last, init)
    ensures Partitioned(period, prev, last, init + [e])
  {
    var d := Route(period, prev, last, e);
    PlacedSnoc(period, prev, last, init, e, d, last);
    RouteInRange(period, prev, last, e);
    RoutedSnoc(period, prev, last, init, e, Keep);
    RoutedSnoc(period, prev, last, init, e, Late);
    PartitionSnoc(
      multiset(init), Placed(period, prev, last, init, last), Routed(period, prev, last, init, Keep),
      Routed(period, prev, last, init, Late), e, d, prev, last);
  }

  lemma PartitionSnoc(
    all: multiset<Event>, placed: multiset<Event>, keep: seq<Event>, late: seq<Event>,
    e: Event, d: Dest, prev: nat, last: nat)
    requires all == placed + multiset(keep) + multiset(late)
    requires d.ToRow? ==> prev < d.p <= last
    ensures all + multiset{e}
            == (placed + RowShare(e, d, prev, last))
               + multiset(keep + if d == Keep then [e] else [])
               + multiset(late + if d == Late then [e] else [])
  {
    assert keep + [] == keep && late + [] == late;
  }

  lemma {:induction false} NothingGathered(f: nat -> seq<Event>, prev: nat, upTo: nat)
    requires forall p: nat :: f(p) == []
    ensures Gather(f, prev, upTo) == multiset{}
  {
    if prev < upTo {
      NothingGathered(f, prev, upTo - 1);
    }
  }

  lemma RowsCarryPlaced(cfg: Config, s: State, symbol: Option<Symbol>, prev: nat, last: nat, upTo: nat)
    requires cfg.period > 0
    ensures Carried(MakeRows(cfg, s, symbol, prev, last, upTo)) == Placed(cfg.period, prev, last, s.pending, upTo)
  {
    if prev < upTo {
      RowAt(cfg, s, symbol, prev, last, upTo);
      RowsGather(MakeRows(cfg, s, symbol, prev, last, upTo), Bundles(cfg.period, prev, last, s.pending), prev, upTo);
    }
  }

  /** Rows that carry the bundles carry what the bundles gather. */
  lemma {:induction false} RowsGather(rows: seq<Row>, bundle: nat -> seq<Event>, prev: nat, upTo: nat)
    requires prev <= upTo && |rows| == upTo - prev
    requires forall i | 0 <= i < |rows| :: rows[i].snapshot.events == bundle(prev + 1 + i)
    ensures Carried(rows) == Gather(bundle, prev, upTo)
  {
    if prev < upTo {
      RowsGather(rows[..|rows| - 1], bundle, prev, upTo - 1);
    }
  }

  lemma {:induction false} RoutedMeans(period: nat, prev: nat, last: nat, es: seq<Event>, d: Dest)
    requires period > 0
    ensures forall e :: e in Routed(period, prev, last, es, d) <==> e in es && Route(period, prev, last, e) == d
  {
    if es != [] {
      RoutedMeans(period, prev, last, es[..|es| - 1], d);
      assert es == es[..|es| - 1] + [es[|es| - 1]];
    }
  }

  lemma {:induction false} TerminalRowsCarry(cfg: Config, s: State, symbols: seq<Symbol>)
    requires cfg.period > 0 && forall x | x in symbols :: x in s.lastPeriod
    ensures |TerminalRows(cfg, s, symbols)| == |symbols|
    ensures forall r | r in TerminalRows(cfg, s, symbols) :: r.terminal && r.snapshot.events == s.pending
  {
    if symbols != [] {
      TerminalRowsCarry(cfg, s, symbols[..|symbols| - 1]);
    }
  }

  lemma {:induction false} RowAt(cfg: Config, s: State, symbol: Option<Symbol>, prev: nat, last: nat, upTo: nat)
    requires cfg.period > 0 && prev <= upTo
    ensures var rows := MakeRows(cfg, s, symbol, prev, last, upTo);
            && |rows| == upTo - prev
            && forall i | 0 <= i < |rows| :: rows[i] == MakeRow(cfg, s, symbol, prev, last, prev + 1 + i)
  {
    if prev < upTo {
      RowAt(cfg, s, symbol, prev, last, upTo - 1);
    }
  }

  /** What every crossing guarantees. */
  lemma CrossConserves(cfg: Config, s: State, symbol: Option<Symbol>, prev: nat, current: nat)
    requires cfg.period > 0 && prev < current
    ensures var e := Cross(cfg, s, symbol, prev, current);
            && multiset(s.pending) == Carried(e.rows) + multiset(e.state.pending) + multiset(e.late)
            && (forall x | x in e.late :: !x.kind.FundingSettlement? && x.ts / cfg.period + 1 <= prev)
            && e.state.totalCaptured == s.totalCaptured + |e.rows|
            && e.state.lateDropped == s.lateDropped + |e.late|
            && e.state.buffer == s.buffer + Snapshots(e.rows)
  {
    var last := prev + FillCount(prev, current);
    RowsBalance(cfg, s, symbol, prev, last);
    LateIsLate(cfg, s, prev, last);
    RowCount(cfg, s, symbol, prev, last, last);
  }

  lemma RowsBalance(cfg: Config, s: State, symbol: Option<Symbol>, prev: nat, last: nat)
    requires cfg.period > 0
    ensures multiset(s.pending) == Carried(MakeRows(cfg, s, symbol, prev, last, last))
                                   + multiset(Routed(cfg.period, prev, last, s.pending, Keep))
                                   + multiset(Routed(cfg.period, prev, last, s.pending, Late))
  {
    Partition(cfg.period, prev, last, s.pending);
    RowsCarryPlaced(cfg, s, symbol, prev, last, last);
  }

  lemma LateIsLate(cfg: Config, s: State, prev: nat, last: nat)
    requires cfg.period > 0
    ensures forall x | x in Routed(cfg.period, prev, last, s.pending, Late) ::
              !x.kind.FundingSettlement? && x.ts / cfg.period + 1 <= prev
  {
    RoutedMeans(cfg.period, prev, last, s.pending, Late);
  }
}
