/**
 The public-trade log of aetelier-connect/src/framework/model.rs and the position it carries across
 reconnects (aetelier-connect/src/framework/runtime.rs).
 */
module TradeBook {
  import opened Wrappers

  type Pair = string

  datatype TradeBookState = Empty | Synced | Closed

  datatype TradeApply = Applied | Duplicate | GappedApplied(missed: nat)

  datatype Trades = Trades(lastSeq: Option<nat>, state: TradeBookState, count: nat, gapEvents: nat, tradesLost: nat)

  function Fresh(lastSeq: Option<nat>): Trades {
    Trades(lastSeq, Empty, 0, 0, 0)
  }

  function Outcome(b: Trades, sequence: Option<nat>): TradeApply {
    if sequence.None? || b.lastSeq.None? then Applied
    else if sequence.value <= b.lastSeq.value then Duplicate
    else if sequence.value > b.lastSeq.value + 1 then GappedApplied(sequence.value - b.lastSeq.value - 1)
    else Applied
  }

  function ApplyPrint(b: Trades, sequence: Option<nat>): Trades {
    match Outcome(b, sequence)
    case Duplicate => b
    case Applied =>
      b.(lastSeq := if sequence.Some? then sequence else b.lastSeq, state := Synced, count := b.count + 1)
    case GappedApplied(missed) =>
      Trades(sequence, Synced, b.count + 1, b.gapEvents + 1, b.tradesLost + missed)
  }

  /**
   What a print is answered tells what it did: a repeat or an older number changes nothing, a jump loses
   exactly the numbers in between, and everything else is counted and moves the position.
   */
  lemma OutcomeTellsAll(b: Trades, sequence: Option<nat>)
    ensures var o, r := Outcome(b, sequence), ApplyPrint(b, sequence);
            && (o == Duplicate <==> sequence.Some? && b.lastSeq.Some? && sequence.value <= b.lastSeq.value)
            && (o.GappedApplied? <==> sequence.Some? && b.lastSeq.Some? && sequence.value >= b.lastSeq.value + 2)
            && (o == Duplicate ==> r == b)
            && (o != Duplicate ==>
                  && r.count == b.count + 1 && r.state == Synced
                  && r.lastSeq == (if sequence.Some? then sequence else b.lastSeq))
            && (o.GappedApplied? ==>
                  && o.missed + b.lastSeq.value + 1 == sequence.value
                  && r.tradesLost == b.tradesLost + o.missed && r.gapEvents == b.gapEvents + 1)
            && (o == Applied ==> r.tradesLost == b.tradesLost && r.gapEvents == b.gapEvents)
  {}

  class SourcedTradebook {
    var lastSeq: Option<nat>
    var state: TradeBookState
    var count: nat
    var gapEvents: nat
    var tradesLost: nat

    ghost function View(): Trades
      reads this
    {
      Trades(lastSeq, state, count, gapEvents, tradesLost)
    }

    constructor (lastSeq: Option<nat>)
      ensures View() == Fresh(lastSeq)
    {
      this.lastSeq, state := lastSeq, Empty;
      count, gapEvents, tradesLost := 0, 0, 0;
    }

    method Apply(sequence: Option<nat>) returns (outcome: TradeApply)
      modifies this
      ensures View() == ApplyPrint(old(View()), sequence)
      ensures outcome == Outcome(old(View()), sequence)
    {
      outcome := Applied;
      if sequence.Some? && lastSeq.Some? {
        var next, last := sequence.value, lastSeq.value;
        if next <= last {
          return Duplicate;
        }
        if next > last + 1 {
          var missed := next - last - 1;
          gapEvents, tradesLost := gapEvents + 1, tradesLost + missed;
          outcome := GappedApplied(missed);
        }
      }
      if sequence.Some? {
        lastSeq := sequence;
      }
      count, state := count + 1, Synced;
    }
  }

  // ---------------------------------------------------------------------------
  // One stream
  // ---------------------------------------------------------------------------

  function ApplyAll(b: Trades, prints: seq<Option<nat>>): Trades {
    if prints == [] then b else ApplyPrint(ApplyAll(b, prints[..|prints| - 1]), prints[|prints| - 1])
  }

  /** Prints the venue gave no sequence for. */
  ghost function Unsequenced(prints: seq<Option<nat>>): nat {
    if prints == [] then 0
    else Unsequenced(prints[..|prints| - 1]) + if prints[|prints| - 1].None? then 1 else 0
  }

  /**
   Exact loss. From a known position, over any prints in any order: sequenced prints applied plus
   prints lost is the distance the position moved. Unsequenced prints only add to the count.
   */
  lemma {:induction false} LossIsExact(b: Trades, prints: seq<Option<nat>>)
    requires b.lastSeq.Some?
    ensures var r := ApplyAll(b, prints);
            && r.lastSeq.Some? && r.lastSeq.value >= b.lastSeq.value
            && (r.count - b.count - Unsequenced(prints)) + (r.tradesLost - b.tradesLost)
               == r.lastSeq.value - b.lastSeq.value
            && r.tradesLost >= b.tradesLost && r.gapEvents >= b.gapEvents
            && (r.tradesLost == b.tradesLost <==> r.gapEvents == b.gapEvents)
  {
    if prints != [] {
      LossIsExact(b, prints[..|prints| - 1]);
    }
  }

  lemma {:induction false} ApplyAllConcat(b: Trades, xs: seq<Option<nat>>, ys: seq<Option<nat>>)
    ensures ApplyAll(b, xs + ys) == ApplyAll(ApplyAll(b, xs), ys)
  {
    if ys == [] {
      assert xs + ys == xs;
    } else {
      ApplyAllConcat(b, xs, ys[..|ys| - 1]);
      assert (xs + ys)[..|xs + ys| - 1] == xs + ys[..|ys| - 1];
    }
  }

  /** Only the position matters to what happens next; the counters are sums. */
  lemma {:induction false} CountersAdd(b: Trades, prints: seq<Option<nat>>)
    ensures var r, f := ApplyAll(b, prints), ApplyAll(Fresh(b.lastSeq), prints);
            && r.lastSeq == f.lastSeq
            && r.count == b.count + f.count
            && r.gapEvents == b.gapEvents + f.gapEvents
            && r.tradesLost == b.tradesLost + f.tradesLost
  {
    if prints != [] {
      CountersAdd(b, prints[..|prints| - 1]);
    }
  }

  // ---------------------------------------------------------------------------
  // Connections, with the carry map
  // ---------------------------------------------------------------------------

  datatype Print = Print(pair: Pair, sequence: Option<nat>)

  /** One connection's tradebooks and the worker's carry. */
  datatype Link = Link(books: map<Pair, Trades>, carry: map<Pair, nat>)

  /** `with_trade_seq_carry`: every book starts where the last connection left it. */
  function Connect(pairs: set<Pair>, carry: map<Pair, nat>): Link {
    Link(map p | p in pairs :: Fresh(if p in carry then Some(carry[p]) else None), carry)
  }

  function OnPrint(l: Link, t: Print): Link {
    if t.pair !in l.books then l
    else
      var b := ApplyPrint(l.books[t.pair], t.sequence);
      Link(l.books[t.pair := b], if b.lastSeq.Some? then l.carry[t.pair := b.lastSeq.value] else l.carry)
  }

  function Serve(l: Link, prints: seq<Print>): Link {
    if prints == [] then l else OnPrint(Serve(l, prints[..|prints| - 1]), prints[|prints| - 1])
  }

  /** A pair's losses, gaps and prints summed over connections. */
  datatype Ledger = Ledger(carry: map<Pair, nat>, lost: nat, gaps: nat, applied: nat)

  function Sessions(pairs: set<Pair>, p: Pair, sessions: seq<seq<Print>>): Ledger
    requires p in pairs
  {
    if sessions == [] then Ledger(map[], 0, 0, 0)
    else
      var before := Sessions(pairs, p, sessions[..|sessions| - 1]);
      var l := Serve(Connect(pairs, before.carry), sessions[|sessions| - 1]);
      ServeKeepsPairs(Connect(pairs, before.carry), sessions[|sessions| - 1]);
      var b := l.books[p];
      Ledger(l.carry, before.lost + b.tradesLost, before.gaps + b.gapEvents, before.applied + b.count)
  }

  lemma {:induction false} ServeKeepsPairs(l: Link, prints: seq<Print>)
    ensures Serve(l, prints).books.Keys == l.books.Keys
  {
    if prints != [] {
      ServeKeepsPairs(l, prints[..|prints| - 1]);
    }
  }

  /** The prints of one pair, in order. */
  function Only(p: Pair, prints: seq<Print>): seq<Option<nat>> {
    if prints == [] then []
    else
      var last := prints[|prints| - 1];
      Only(p, prints[..|prints| - 1]) + if last.pair == p then [last.sequence] else []
  }

  function AllOf(p: Pair, sessions: seq<seq<Print>>): seq<Option<nat>> {
    if sessions == [] then [] else AllOf(p, sessions[..|sessions| - 1]) + Only(p, sessions[|sessions| - 1])
  }

  ghost function CarryOf(carry: map<Pair, nat>, p: Pair): Option<nat> {
    if p in carry then Some(carry[p]) else None
  }

  lemma {:induction false} ServeIsPerPair(l: Link, p: Pair, prints: seq<Print>)
    requires p in l.books && CarryOf(l.carry, p) == l.books[p].lastSeq
    ensures var r := Serve(l, prints);
            p in r.books && r.books[p] == ApplyAll(l.books[p], Only(p, prints))
            && CarryOf(r.carry, p) == r.books[p].lastSeq
  {
    if prints != [] {
      var init, last := prints[..|prints| - 1], prints[|prints| - 1];
      ServeIsPerPair(l, p, init);
      PrintIsPerPair(Serve(l, init), p, last);
      var was, now := Only(p, init), Only(p, prints);
      if last.pair == p {
        assert now[..|now| - 1] == was;
      } else {
        assert now == was;
      }
    }
  }

  lemma PrintIsPerPair(l: Link, p: Pair, t: Print)
    requires p in l.books && CarryOf(l.carry, p) == l.books[p].lastSeq
    ensures var r := OnPrint(l, t);
            && p in r.books && CarryOf(r.carry, p) == r.books[p].lastSeq
            && r.books[p] == if t.pair == p then ApplyPrint(l.books[p], t.sequence) else l.books[p]
  {}

  /**
   Reconnects lose nothing from the books. However a stream is cut into connections, with the carry
   map in between the losses, gaps and prints summed over the connections, and the carried position,
   are those of one uninterrupted tradebook.
   */
  lemma {:induction false} CarryMakesReconnectsExact(pairs: set<Pair>, p: Pair, sessions: seq<seq<Print>>)
    requires p in pairs
    ensures var sum, one := Sessions(pairs, p, sessions), ApplyAll(Fresh(None), AllOf(p, sessions));
            && sum.lost == one.tradesLost && sum.gaps == one.gapEvents && sum.applied == one.count
            && CarryOf(sum.carry, p) == one.lastSeq
  {
    if sessions != [] {
      var init, last := sessions[..|sessions| - 1], sessions[|sessions| - 1];
      CarryMakesReconnectsExact(pairs, p, init);
      var before := Sessions(pairs, p, init);
      var l := Connect(pairs, before.carry);
      ServeIsPerPair(l, p, last);
      var one := ApplyAll(Fresh(None), AllOf(p, init));
      ApplyAllConcat(Fresh(None), AllOf(p, init), Only(p, last));
      CountersAdd(one, Only(p, last));
    }
  }
}
