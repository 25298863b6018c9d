/**
 Seed-and-replay completeness, and the two places where the protocol's promise ends.
 */
module RuntimeCompleteness {
  import opened Wrappers
  import opened Levels
  import opened Reconstruction
  import opened Runtime
  import opened RuntimeSoundness

  /** Each delta picks up where the one before it ended. */
  ghost predicate Link(p: SeqPredicate, id: nat, d: Delta) {
    if p.ExactPrev? then d.sequence == id else d.sequence <= id + 1
  }

  /** A contiguous chain of honest, parseable deltas with growing ids. */
  ghost predicate Chain(p: SeqPredicate, h: History, buf: seq<Delta>) {
    buf != [] ==>
      && !buf[0].isSnapshot && WellFormed(buf[0].levels) && Honest(p, h, buf[0])
      && (|buf| > 1 ==> buf[0].updateId < buf[1].updateId && Link(p, buf[0].updateId, buf[1]))
      && Chain(p, h, buf[1..])
  }

  ghost predicate NeverCrossed(h: History) {
    forall n: nat :: !Crossed(TrueBook(h, n))
  }

  /** The deltas the snapshot does not cover. */
  ghost function Uncovered(buf: seq<Delta>, snapId: nat): seq<Delta> {
    if buf == [] then []
    else (if buf[0].updateId <= snapId then [] else [buf[0]]) + Uncovered(buf[1..], snapId)
  }

  /** One true book per delta. */
  ghost function TrueBooks(h: History, p: Pair, ds: seq<Delta>): seq<Log> {
    seq(|ds|, i requires 0 <= i < |ds| => Emit(p, TrueBook(h, ds[i].updateId), ds[i].updateId))
  }

  ghost function FinalId(buf: seq<Delta>, id: nat): nat {
    if buf == [] || buf[|buf| - 1].updateId <= id then id else buf[|buf| - 1].updateId
  }

  lemma {:induction false} ChainGrows(p: SeqPredicate, h: History, buf: seq<Delta>, id: nat)
    requires Chain(p, h, buf) && buf != [] && buf[0].updateId > id
    ensures Uncovered(buf, id) == buf && (forall d | d in buf :: d.updateId > id)
  {
    if |buf| > 1 {
      ChainGrows(p, h, buf[1..], id);
    }
  }

  lemma LinkedDeltaIsAccepted(m: ReconstructionModel, h: History, b: Sourced, d: Delta)
    requires Provable(m) && NeverCrossed(h) && !d.isSnapshot && WellFormed(d.levels) && Honest(m.continuity, h, d)
    requires b.last.Some? && b.initialized && TrueOfLast(h, b)
    requires Link(m.continuity, b.last.value, d) && d.updateId > b.last.value
    ensures ApplyDelta(m, b, d)
            == Outcome(b.(levels := TrueBook(h, d.updateId), last := Some(d.updateId), state := Synced), Applied)
  {
    DeltaIsTrue(m.continuity, h, b, d);
  }

  /** From a true book, a chain that links to its id is accepted whole. */
  lemma {:induction false} ChainIsAccepted(
    m: ReconstructionModel, h: History, p: Pair, b: Sourced, buf: seq<Delta>, snapId: nat)
    requires Provable(m) && NeverCrossed(h) && Chain(m.continuity, h, buf)
    requires b.last.Some? && b.initialized && TrueOfLast(h, b) && b.last.value >= snapId
    requires buf != [] ==> Link(m.continuity, b.last.value, buf[0]) && buf[0].updateId > b.last.value
    ensures var rep := Replay(m, p, b, buf, snapId);
            && rep.stuck == []
            && rep.log == TrueBooks(h, p, buf)
            && rep.book.last == Some(FinalId(buf, b.last.value))
            && rep.book.levels == TrueBook(h, rep.book.last.value)
            && (buf != [] || b.state.Synced? ==> rep.book.state.Synced?)
    decreases |buf|
  {
    if buf != [] {
      var d := buf[0];
      LinkedDeltaIsAccepted(m, h, b, d);
      var r := ApplyDelta(m, b, d);
      assert ApplyLog(p, d, r) == [Emit(p, TrueBook(h, d.updateId), d.updateId)];
      ChainIsAccepted(m, h, p, r.book, buf[1..], snapId);
      assert TrueBooks(h, p, buf) == [Emit(p, TrueBook(h, d.updateId), d.updateId)] + TrueBooks(h, p, buf[1..]);
      ChainGrows(m.continuity, h, buf, b.last.value);
      if |buf| > 1 {
        ChainGrows(m.continuity, h, buf[1..], d.updateId);
      }
    }
  }

  /** The first delta the snapshot does not cover links to it, or nothing is left to link. */
  ghost predicate Bridges(p: SeqPredicate, buf: seq<Delta>, snapId: nat) {
    var rest := Uncovered(buf, snapId);
    rest != [] ==> Link(p, snapId, rest[0])
  }

  /**
   A buffered chain reconciles cleanly exactly when it bridges the snapshot; then every covered
   delta is skipped, every other one is accepted and sent as the true book of its id, and the book
   ends at the last buffered id.
   */
  lemma {:induction false} ReplayReconciles(
    m: ReconstructionModel, h: History, p: Pair, b: Sourced, buf: seq<Delta>, snapId: nat)
    requires Provable(m) && NeverCrossed(h) && Chain(m.continuity, h, buf)
    requires b.last == Some(snapId) && b.initialized && b.state.Synced? && TrueOfLast(h, b)
    ensures var rep := Replay(m, p, b, buf, snapId);
            && (rep.stuck == [] <==> Bridges(m.continuity, buf, snapId))
            && (rep.stuck == [] ==>
                  && rep.log == TrueBooks(h, p, Uncovered(buf, snapId))
                  && rep.book.last == Some(FinalId(buf, snapId))
                  && rep.book.levels == TrueBook(h, FinalId(buf, snapId))
                  && rep.book.state.Synced?)
    decreases |buf|
  {
    if buf != [] {
      if buf[0].updateId <= snapId {
        ReplayReconciles(m, h, p, b, buf[1..], snapId);
        assert Uncovered(buf, snapId) == Uncovered(buf[1..], snapId);
      } else {
        ChainGrows(m.continuity, h, buf, snapId);
        if Link(m.continuity, snapId, buf[0]) {
          ChainIsAccepted(m, h, p, b, buf, snapId);
        } else {
          UnlinkedIsStuck(m, p, b, buf, snapId);
        }
      }
    }
  }

  lemma UnlinkedIsStuck(m: ReconstructionModel, p: Pair, b: Sourced, buf: seq<Delta>, snapId: nat)
    requires Provable(m) && buf != [] && !buf[0].isSnapshot && buf[0].updateId > snapId
    requires b.last == Some(snapId) && !Link(m.continuity, snapId, buf[0])
    ensures Replay(m, p, b, buf, snapId).stuck == buf
  {}

  /** A range chain that starts at or below the snapshot's next id bridges it. */
  lemma {:induction false} RangeChainBridges(h: History, buf: seq<Delta>, snapId: nat)
    requires Chain(RangeInclusive, h, buf)
    requires buf != [] ==> buf[0].sequence <= snapId + 1
    ensures Bridges(RangeInclusive, buf, snapId)
  {
    if buf != [] {
      if buf[0].updateId <= snapId {
        RangeChainBridges(h, buf[1..], snapId);
      } else {
        ChainGrows(RangeInclusive, h, buf, snapId);
      }
    }
  }

  /** A previous-id chain that passes through the snapshot id bridges it. */
  lemma {:induction false} PrevIdChainBridges(h: History, buf: seq<Delta>, snapId: nat)
    requires Chain(ExactPrev, h, buf)
    requires buf != [] ==> buf[0].sequence == snapId || exists d :: d in buf && d.updateId == snapId
    ensures Bridges(ExactPrev, buf, snapId)
  {
    if buf != [] {
      var tail := buf[1..];
      assert buf == [buf[0]] + tail;
      if buf[0].updateId <= snapId {
        if tail != [] && buf[0].updateId < snapId {
          assert buf[0].sequence < buf[0].updateId;
          var d :| d in buf && d.updateId == snapId;
          assert d in tail;
        } else if tail != [] {
          assert tail[0] == buf[1] && tail[0].sequence == snapId;
        }
        PrevIdChainBridges(h, tail, snapId);
      } else {
        ChainGrows(ExactPrev, h, buf, snapId);
      }
    }
  }

  /**
   Completeness of one seed. A waiting pair whose buffer is a chain that bridges the honest snapshot
   goes back to streaming with a full reseed budget, at the true book of the last id it has seen.
   */
  lemma SeedReconciles(cfg: Config, h: History, s: State, p: Pair, snapshot: Delta)
    requires Provable(cfg.model) && NeverCrossed(h)
    requires p in s.books && s.books[p].phase.Buffering?
    requires snapshot.isSnapshot && WellFormed(snapshot.levels) && Honest(cfg.model.continuity, h, snapshot)
    requires Chain(cfg.model.continuity, h, s.books[p].phase.buf)
    requires Bridges(cfg.model.continuity, s.books[p].phase.buf, snapshot.updateId)
    ensures var s' := ApplySeed(cfg, s, p, snapshot); var b := s'.books[p];
            var buf := s.books[p].phase.buf; var id := FinalId(buf, snapshot.updateId);
            && b.phase.Passthrough? && b.reseeds == 0 && b.book.state.Synced?
            && b.book.last == Some(id) && b.book.levels == TrueBook(h, id)
            && s'.log == s.log + [Reset(p), Emit(p, TrueBook(h, snapshot.updateId), snapshot.updateId)]
                         + TrueBooks(h, p, Uncovered(buf, snapshot.updateId))
            && s'.exit == s.exit
  {
    var b := s.books[p];
    var r := ApplyDelta(cfg.model, b.book, snapshot);
    FrameIsSound(cfg.model, h, b.book, snapshot);
    assert r.out == Snapshot && r.book.initialized && r.book.state.Synced?;
    ReplayReconciles(cfg.model, h, p, r.book, b.phase.buf, snapshot.updateId);
    assert ApplyLog(p, snapshot, r) == [Reset(p), Emit(p, TrueBook(h, snapshot.updateId), snapshot.updateId)];
  }

  // ---------------------------------------------------------------------------
  // Where soundness ends
  // ---------------------------------------------------------------------------

  /**
   An unparseable seed corrupts a streaming pair. For every streaming pair with budget left and a
   fetch in flight: when the fetch brings a snapshot that fails half way, any later honest delta
   that continues the book and does not rewrite some level on which the half-loaded book is wrong
   is accepted and sent, and what is sent is not the venue's book.
   */
  lemma UnparsedSeedCorrupts(cfg: Config, v: Venue, s: State, p: Pair, snapshot: Delta, d: Delta, k: Key)
    requires Provable(cfg.model) && cfg.hasSeeder && s.exit.None? && !s.eventsDone
    requires p in s.books && p in s.outstanding
    requires var b := s.books[p];
             b.phase.Passthrough? && b.book.initialized && b.book.last.Some? && b.reseeds < MAX_RESEEDS
    requires snapshot.isSnapshot && !WellFormed(snapshot.levels)
    requires !d.isSnapshot && WellFormed(d.levels) && Continuous(cfg.model.continuity, s.books[p].book.last.value, d)
    requires var half := Overlay(Load(ReadPrefix(snapshot.levels)), ReadPrefix(d.levels));
             var truth := TrueBook(v(p), d.updateId);
             !Crossed(half) && ((k in half) != (k in truth) || (k in half && k in truth && half[k] != truth[k]))
    ensures HonestEvent(cfg.model.continuity, v, SeedOk(p, snapshot))
    ensures var log := Run(cfg, s, [SeedOk(p, snapshot), Frame(p, d)]).log;
            log != [] && var e := log[|log| - 1];
            e.Emit? && e.pair == p && e.id == d.updateId && e.levels != TrueBook(v(p), e.id)
  {
    var evs := [SeedOk(p, snapshot), Frame(p, d)];
    var s1 := Step(cfg, s, evs[0]);
    assert evs[..1] == [evs[0]] && evs[..1][..0] == [];
    assert Run(cfg, s, evs[..1]) == s1;
    UnparsedSeedKeepsStreaming(cfg, s, p, snapshot);
    StreamingFrameIsSent(cfg, s1, p, d);
    assert Run(cfg, s, evs) == Step(cfg, s1, evs[1]);
  }

  lemma UnparsedSeedKeepsStreaming(cfg: Config, s: State, p: Pair, snapshot: Delta)
    requires Provable(cfg.model) && cfg.hasSeeder && s.exit.None? && !s.eventsDone
    requires p in s.books && p in s.outstanding && s.books[p].phase.Passthrough? && s.books[p].reseeds < MAX_RESEEDS
    requires snapshot.isSnapshot && !WellFormed(snapshot.levels)
    ensures var s' := Step(cfg, s, SeedOk(p, snapshot));
            && s'.exit.None? && !s'.eventsDone && p in s'.books && s'.books[p].phase.Passthrough?
            && s'.books[p].book == s.books[p].book.(levels := Load(ReadPrefix(snapshot.levels)), state := Gapped)
  {
    var s0 := SeedLanded(s, p);
    var r := ApplyDelta(cfg.model, s0.books[p].book, snapshot);
    assert r == Gap(s.books[p].book.(levels := Load(ReadPrefix(snapshot.levels))));
  }

  lemma StreamingFrameIsSent(cfg: Config, s: State, p: Pair, d: Delta)
    requires Provable(cfg.model) && s.exit.None? && !s.eventsDone && p in s.books
    requires s.books[p].phase.Passthrough? && s.books[p].book.initialized && s.books[p].book.last.Some?
    requires Continuous(cfg.model.continuity, s.books[p].book.last.value, d)
    requires !Crossed(Overlay(s.books[p].book.levels, ReadPrefix(d.levels)))
    requires !d.isSnapshot && WellFormed(d.levels)
    ensures Step(cfg, s, Frame(p, d)).log
            == s.log + [Emit(p, Overlay(s.books[p].book.levels, ReadPrefix(d.levels)), d.updateId)]
  {
    var r := ApplyDelta(cfg.model, s.books[p].book, d);
    assert ApplyLog(p, d, r) == [Emit(p, Overlay(s.books[p].book.levels, ReadPrefix(d.levels)), d.updateId)];
  }

  // A venue with one bid, which drops some other levels at update 3. The runtime is led to stream that
  // bid with a fetch out, then gets the seed, then the update.

  /** Deletions of all the levels. */
  ghost function Deletes(ks: set<Key>): seq<Write> {
    if ks == {} then [] else var k :| k in ks; Deletes(ks - {k}) + [Write(k, 0.0)]
  }

  ghost function AsTexts(ws: seq<Write>): seq<Text> {
    seq(|ws|, i requires 0 <= i < |ws| => Parsed(ws[i]))
  }

  ghost function OneBid(bid: Key, dropped: set<Key>): History {
    (n: nat) => if n == 0 then [Write(bid, 1.0)] else if n == 3 then Deletes(dropped) else []
  }

  ghost function Opening(bid: Key, id: nat): Delta {
    Delta([Parsed(Write(bid, 1.0))], [], id, 0, true)
  }

  /** Update 2, when update 1 was lost. */
  ghost function Skip(p: SeqPredicate): Delta {
    Delta([], [], 2, if p.ExactPrev? then 1 else 2, false)
  }

  ghost function Drop(p: SeqPredicate, dropped: set<Key>): Delta {
    Delta(AsTexts(Deletes(dropped)), [], 3, if p.ExactPrev? then 2 else 3, false)
  }

  ghost function Seed(texts: seq<Text>): Delta {
    Delta(texts, [], 2, 0, true)
  }

  ghost function HazardRun(p: SeqPredicate, bid: Key, texts: seq<Text>): seq<Event> {
    [Frame("P", Opening(bid, 0))] + [Frame("P", Skip(p))] + [Frame("P", Opening(bid, 2))]
    + [SeedOk("P", Seed(texts))] + [Frame("P", Drop(p, Load(ReadPrefix(texts)).Keys))]
  }

  lemma {:induction false} DeletesMean(ks: set<Key>)
    ensures Net(Deletes(ks)) == map k | k in ks :: 0.0
  {
    if ks != {} {
      var ws := Deletes(ks);
      var k := ws[|ws| - 1].key;
      assert k in ks && ws[..|ws| - 1] == Deletes(ks - {k});
      DeletesMean(ks - {k});
    }
  }

  lemma {:induction false} ReadTexts(ws: seq<Write>)
    ensures ReadPrefix(AsTexts(ws)) == ws && WellFormed(AsTexts(ws))
  {
    assert forall t | t in AsTexts(ws) :: t.Parsed?;
  }

  lemma WipedBook(b: Book)
    ensures Overlay(b, Deletes(b.Keys)) == map[]
  {
    OverlayIsPatch(b, Deletes(b.Keys));
    DeletesMean(b.Keys);
  }

  lemma OneBidBooks(bid: Key, dropped: set<Key>)
    requires bid !in dropped
    ensures var h := OneBid(bid, dropped);
            forall n: nat | n <= 3 :: TrueBook(h, n) == map[bid := 1.0]
    ensures Load(ReadPrefix(Opening(bid, 0).levels)) == map[bid := 1.0]
    ensures var h := OneBid(bid, dropped); Updates(h, 2, 2) == [] && Updates(h, 3, 3) == Deletes(dropped)
  {
    var h, w := OneBid(bid, dropped), Write(bid, 1.0);
    assert [w][..0] == [];
    assert Overlay(map[], [w]) == WriteLevel(Overlay(map[], []), w);
    assert Load([w]) == LoadLevel(Load([]), w);
    assert ReadPrefix(Opening(bid, 0).levels) == [w];
    assert TrueBook(h, 0) == TrueBook(h, 1) == TrueBook(h, 2) == map[bid := 1.0];
    OverlayIsPatch(TrueBook(h, 2), Deletes(dropped));
    DeletesMean(dropped);
    assert TrueBook(h, 3) == map[bid := 1.0];
    assert Updates(h, 2, 2) == Updates(h, 2, 1) + h(2);
    assert Updates(h, 3, 3) == Updates(h, 3, 2) + h(3);
  }

  /** The book of that one bid, as the runtime holds it at an id. */
  ghost function Mirror(bid: Key, id: nat): Sourced {
    Sourced.Sourced(map[bid := 1.0], true, Some(id), Synced, map[], map[])
  }

  lemma OpeningIsTaken(m: ReconstructionModel, bid: Key, id: nat, b: Sourced)
    requires m.SeqDelta? && !bid.isAsk && b.orders == map[] && b.totals == map[]
    ensures ApplyDelta(m, b, Opening(bid, id)) == Outcome(Mirror(bid, id), Snapshot)
  {
    OneBidBooks(bid, {});
    assert Opening(bid, id).levels == Opening(bid, 0).levels;
    assert ReadPrefix(Opening(bid, id).levels) == [Write(bid, 1.0)];
  }

  /** Whatever the venue, the opening snapshot makes the pair stream. */
  lemma OpeningStreams(cfg: Config, bid: Key)
    requires Provable(cfg.model) && cfg.hasSeeder && !bid.isAsk
    ensures var s := Step(cfg, Start(cfg, {"P"}), Frame("P", Opening(bid, 0)));
            && s.exit.None? && !s.eventsDone && "P" in s.books
            && s.books["P"].book == Mirror(bid, 0) && s.books["P"].phase.Passthrough? && s.books["P"].reseeds == 0
            && ("P" in s.outstanding <==> s.books["P"].seeding)
  {
    OpeningIsTaken(cfg.model, bid, 0, FRESH);
    var s0 := Start(cfg, {"P"});
    assert s0.books["P"].book == FRESH;
    assert s0.books["P"].phase.Buffering? ==>
               Replay(cfg.model, "P", Mirror(bid, 0), [], 0) == Replayed(Mirror(bid, 0), [], []);
  }

  /** A lost update makes it wait, with a fetch out. */
  lemma SkipWaits(cfg: Config, s: State, bid: Key)
    requires Provable(cfg.model) && cfg.hasSeeder && s.exit.None? && !s.eventsDone && "P" in s.books
    requires s.books["P"].book == Mirror(bid, 0) && s.books["P"].phase.Passthrough? && s.books["P"].reseeds == 0
    requires "P" in s.outstanding <==> s.books["P"].seeding
    ensures var d := Skip(cfg.model.continuity); var s' := Step(cfg, s, Frame("P", d));
            && s'.exit.None? && !s'.eventsDone && "P" in s'.books && "P" in s'.outstanding
            && s'.books["P"].book == Mirror(bid, 0).(state := Gapped) && s'.books["P"].phase == Buffering([d])
  {
    var d := Skip(cfg.model.continuity);
    assert ApplyDelta(cfg.model, Mirror(bid, 0), d) == Gap(Mirror(bid, 0));
  }

  /** The next snapshot in the stream covers the gap, and the pair streams with the fetch still out. */
  lemma OpeningResumes(cfg: Config, s: State, bid: Key)
    requires Provable(cfg.model) && s.exit.None? && !s.eventsDone && "P" in s.books
                 && "P" in s.outstanding && !bid.isAsk
    requires s.books["P"].book == Mirror(bid, 0).(state := Gapped)
    requires s.books["P"].phase == Buffering([Skip(cfg.model.continuity)])
    ensures var s' := Step(cfg, s, Frame("P", Opening(bid, 2)));
            && s'.exit.None? && !s'.eventsDone && "P" in s'.books && "P" in s'.outstanding
            && s'.books["P"].book == Mirror(bid, 2) && s'.books["P"].phase.Passthrough? && s'.books["P"].reseeds == 0
  {
    OpeningIsTaken(cfg.model, bid, 2, s.books["P"].book);
    var buf := [Skip(cfg.model.continuity)];
    assert buf[1..] == [];
    assert Replay(cfg.model, "P", Mirror(bid, 2), buf, 2) == Replayed(Mirror(bid, 2), [], []);
  }

  lemma {:induction false} PriceAbove(ks: set<Key>) returns (m: real)
    ensures forall k | k in ks :: k.price < m
  {
    if ks == {} {
      m := 0.0;
    } else {
      var k :| k in ks;
      m := PriceAbove(ks - {k});
      m := if m > k.price then m else k.price + 1.0;
    }
  }

  lemma OpeningIsHonest(p: SeqPredicate, bid: Key, dropped: set<Key>, id: nat)
    requires bid !in dropped && id <= 3
    ensures Honest(p, OneBid(bid, dropped), Opening(bid, id))
  {
    OneBidBooks(bid, dropped);
    assert Opening(bid, id).levels == Opening(bid, 0).levels;
  }

  lemma UpdatesAreHonest(p: SeqPredicate, bid: Key, dropped: set<Key>)
    requires !p.Monotonic? && bid !in dropped
    ensures Honest(p, OneBid(bid, dropped), Skip(p)) && Honest(p, OneBid(bid, dropped), Drop(p, dropped))
  {
    OneBidBooks(bid, dropped);
    ReadTexts(Deletes(dropped));
    assert ReadPrefix([]) == [];
  }

  lemma HazardIsHonest(p: SeqPredicate, bid: Key, texts: seq<Text>)
    requires !p.Monotonic? && !WellFormed(texts) && bid !in Load(ReadPrefix(texts))
    ensures var h := OneBid(bid, Load(ReadPrefix(texts)).Keys);
            forall ev | ev in HazardRun(p, bid, texts) :: HonestEvent(p, (q: Pair) => h, ev)
  {
    var dropped := Load(ReadPrefix(texts)).Keys;
    var h := OneBid(bid, dropped);
    OpeningIsHonest(p, bid, dropped, 0);
    OpeningIsHonest(p, bid, dropped, 2);
    UpdatesAreHonest(p, bid, dropped);
    assert Honest(p, h, Seed(texts));
    FiveFrames(p, (q: Pair) => h, Opening(bid, 0), Skip(p), Opening(bid, 2), Seed(texts), Drop(p, dropped));
  }

  lemma FiveFrames(p: SeqPredicate, v: Venue, a: Delta, b: Delta, c: Delta, d: Delta, e: Delta)
    requires Honest(p, v("P"), a) && Honest(p, v("P"), b) && Honest(p, v("P"), c)
    requires Honest(p, v("P"), d) && Honest(p, v("P"), e)
    ensures var evs := [Frame("P", a)] + [Frame("P", b)] + [Frame("P", c)] + [SeedOk("P", d)] + [Frame("P", e)];
            forall ev | ev in evs :: HonestEvent(p, v, ev)
  {}

  lemma RunSnoc(cfg: Config, s: State, evs: seq<Event>, ev: Event, t: State)
    requires Run(cfg, s, evs) == t
    ensures Run(cfg, s, evs + [ev]) == Step(cfg, t, ev)
  {
    assert (evs + [ev])[..|evs|] == evs;
  }

  /**
   The hazard is reachable from start-up, for every venue kind and every text that does not parse: five
   honest events end in an empty book for a venue that has a bid.
   */
  lemma UnparsedSeedIsReachable(cfg: Config, texts: seq<Text>) returns (bid: Key)
    requires Provable(cfg.model) && cfg.hasSeeder && !WellFormed(texts)
    ensures var h := OneBid(bid, Load(ReadPrefix(texts)).Keys); var evs := HazardRun(cfg.model.continuity, bid, texts);
            && (forall ev | ev in evs :: HonestEvent(cfg.model.continuity, (q: Pair) => h, ev))
            && Emit("P", map[], 3) in Run(cfg, Start(cfg, {"P"}), evs).log && TrueBook(h, 3) == map[bid := 1.0]
  {
    var p := cfg.model.continuity;
    var half := Load(ReadPrefix(texts));
    var m := PriceAbove(half.Keys);
    bid := Key(false, m);
    HazardIsHonest(p, bid, texts);
    OneBidBooks(bid, half.Keys);
    HazardEmits(cfg, bid, texts);
  }

  lemma HazardEmits(cfg: Config, bid: Key, texts: seq<Text>)
    requires Provable(cfg.model) && cfg.hasSeeder && !WellFormed(texts) && !bid.isAsk
    ensures Emit("P", map[], 3) in Run(cfg, Start(cfg, {"P"}), HazardRun(cfg.model.continuity, bid, texts)).log
  {
    var p := cfg.model.continuity;
    var half := Load(ReadPrefix(texts));
    var s0 := Start(cfg, {"P"});
    OpeningStreams(cfg, bid);
    var s1 := Step(cfg, s0, Frame("P", Opening(bid, 0)));
    SkipWaits(cfg, s1, bid);
    var s2 := Step(cfg, s1, Frame("P", Skip(p)));
    OpeningResumes(cfg, s2, bid);
    var s3 := Step(cfg, s2, Frame("P", Opening(bid, 2)));
    UnparsedSeedKeepsStreaming(cfg, s3, "P", Seed(texts));
    var s4 := Step(cfg, s3, SeedOk("P", Seed(texts)));
    ReadTexts(Deletes(half.Keys));
    WipedBook(half);
    StreamingFrameIsSent(cfg, s4, "P", Drop(p, half.Keys));
    var e1 := [Frame("P", Opening(bid, 0))];
    var e2 := e1 + [Frame("P", Skip(p))];
    var e3 := e2 + [Frame("P", Opening(bid, 2))];
    var e4 := e3 + [SeedOk("P", Seed(texts))];
    assert [] + [Frame("P", Opening(bid, 0))] == e1;
    RunSnoc(cfg, s0, [], Frame("P", Opening(bid, 0)), s0);
    RunSnoc(cfg, s0, e1, Frame("P", Skip(p)), s1);
    RunSnoc(cfg, s0, e2, Frame("P", Opening(bid, 2)), s2);
    RunSnoc(cfg, s0, e3, SeedOk("P", Seed(texts)), s3);
    RunSnoc(cfg, s0, e4, Frame("P", Drop(p, half.Keys)), s4);
  }

  /** Every event is honest, and every seed parses or has these levels. */
  ghost predicate SeededWith(p: SeqPredicate, v: Venue, evs: seq<Event>, texts: seq<Text>) {
    forall ev | ev in evs ::
      HonestEvent(p, v, ev) && (ev.SeedOk? ==> WellFormed(ev.snapshot.levels) || ev.snapshot.levels == texts)
  }

  /** A seed made of these levels never makes a run send a false book, whatever the venue and the run. */
  ghost predicate SafeSeed(cfg: Config, texts: seq<Text>)
    requires cfg.model.SeqDelta?
  {
    forall v: Venue, pairs: set<Pair>, evs: seq<Event> | SeededWith(cfg.model.continuity, v, evs, texts) ::
      TrueLog(v, Run(cfg, Start(cfg, pairs), evs).log)
  }

  /** The guard `SeedParses` is exact: over all runs from start-up, a seed is safe exactly when it parses. */
  lemma SeedIsSafeExactlyWhenItParses(cfg: Config, texts: seq<Text>)
    requires Provable(cfg.model) && cfg.hasSeeder
    ensures SafeSeed(cfg, texts) <==> WellFormed(texts)
  {
    var p := cfg.model.continuity;
    if WellFormed(texts) {
      forall v: Venue, pairs: set<Pair>, evs: seq<Event> | SeededWith(p, v, evs, texts)
        ensures TrueLog(v, Run(cfg, Start(cfg, pairs), evs).log)
      {
        assert HonestRun(cfg, v, Start(cfg, pairs), evs);
        ReconstructionIsSound(cfg, v, pairs, evs);
      }
    } else {
      UnparsedSeedBreaks(cfg, texts);
    }
  }

  lemma UnparsedSeedBreaks(cfg: Config, texts: seq<Text>)
    requires Provable(cfg.model) && cfg.hasSeeder && !WellFormed(texts)
    ensures !SafeSeed(cfg, texts)
  {
    var p := cfg.model.continuity;
    var bid := UnparsedSeedIsReachable(cfg, texts);
    var h, evs := OneBid(bid, Load(ReadPrefix(texts)).Keys), HazardRun(p, bid, texts);
    var v: Venue := (q: Pair) => h;
    HazardIsSeeded(p, v, bid, texts);
    FalseLog(v, Run(cfg, Start(cfg, {"P"}), evs).log, Emit("P", map[], 3), bid);
  }

  lemma HazardIsSeeded(p: SeqPredicate, v: Venue, bid: Key, texts: seq<Text>)
    requires forall ev | ev in HazardRun(p, bid, texts) :: HonestEvent(p, v, ev)
    ensures SeededWith(p, v, HazardRun(p, bid, texts), texts)
  {}

  lemma FalseLog(v: Venue, log: seq<Log>, e: Log, k: Key)
    requires e in log && e.Emit? && k !in e.levels && k in TrueBook(v(e.pair), e.id)
    ensures !TrueLog(v, log)
  {}

  /** Levels outside a net effect that differ between two books. */
  ghost predicate DiffersOutside(a: Book, b: Book, net: map<Key, real>) {
    exists k: Key :: k !in net && ((k in a) != (k in b) || (k in a && k in b && a[k] != b[k]))
  }

  /**
   The connection-counter predicate proves nothing: when updates n + 1 to m - 1 are lost, update m is
   still accepted, and the book it leaves is the venue's if and only if no level that m leaves alone was
   changed by the lost ones.
   */
  lemma MonotonicHidesALoss(source: SnapshotSource, h: History, n: nat, m: nat, b: Sourced, next: Delta)
    requires n < m && b.initialized && b.last == Some(n) && b.levels == TrueBook(h, n)
    requires !next.isSnapshot && WellFormed(next.levels) && next.updateId == m
    requires Net(ReadPrefix(next.levels)) == Net(h(m)) && !Crossed(Overlay(b.levels, ReadPrefix(next.levels)))
    ensures var r := ApplyDelta(SeqDelta(Monotonic, source), b, next);
            && r.out == Applied && r.book.last == Some(m)
            && (r.book.levels == TrueBook(h, m) <==> !DiffersOutside(TrueBook(h, n), TrueBook(h, m - 1), Net(h(m))))
  {
    OverlayIsPatch(b.levels, ReadPrefix(next.levels));
    OverlayIsPatch(TrueBook(h, m - 1), h(m));
    assert TrueBook(h, m) == Patch(TrueBook(h, m - 1), Net(h(m)));
    PatchesAgreeIff(TrueBook(h, n), TrueBook(h, m - 1), Net(h(m)));
  }

  lemma PatchesAgreeIff(a: Book, b: Book, net: map<Key, real>)
    ensures Patch(a, net) == Patch(b, net) <==> !DiffersOutside(a, b, net)
  {
    var pa, pb := Patch(a, net), Patch(b, net);
    assert forall k | k !in net :: (k in pa <==> k in a) && (k in pb <==> k in b);
    assert forall k | k !in net && k in a :: pa[k] == a[k];
    assert forall k | k !in net && k in b :: pb[k] == b[k];
    if DiffersOutside(a, b, net) {
      var k: Key :| k !in net && ((k in a) != (k in b) || (k in a && k in b && a[k] != b[k]));
      assert (k in pa) != (k in pb) || pa[k] != pb[k];
    } else {
      assert forall k: Key | k !in net :: (k in a <==> k in b) && (k in a ==> a[k] == b[k]);
    }
  }
}
