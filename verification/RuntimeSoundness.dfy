/**
 Reconstruction soundness: whatever the network does to honest frames, every book a run sends
 downstream is the venue's own book at the update id it was taken at.
 */
module RuntimeSoundness {
  import opened Wrappers
  import opened Levels
  import opened Reconstruction
  import opened Runtime

  /** Each pair has its own venue history. */
  type Venue = Pair -> History

  /**
   An honest frame is the truth about the venue when it parses: a snapshot is the true book of its
   id; a range delta is the net effect of updates sequence..update_id; a previous-id delta is the
   net effect of everything after that id. A frame that does not parse may hold anything.
   */
  ghost predicate Honest(p: SeqPredicate, h: History, d: Delta) {
    if d.isSnapshot then
      WellFormed(d.levels) ==> Load(ReadPrefix(d.levels)) == TrueBook(h, d.updateId)
    else
      && (p.ExactPrev? ==> d.sequence < d.updateId)
      && (WellFormed(d.levels) ==>
            Net(ReadPrefix(d.levels))
              == Net(Updates(h, if p.ExactPrev? then d.sequence + 1 else d.sequence, d.updateId)))
  }

  ghost predicate HonestEvent(p: SeqPredicate, v: Venue, ev: Event) {
    match ev
    case Frame(pair, d) => Honest(p, v(pair), d)
    case SeedOk(pair, d) => Honest(p, v(pair), d)
    case _ => true
  }

  /** The models whose predicate proves continuity. */
  ghost predicate Provable(m: ReconstructionModel) {
    m.SeqDelta? && !m.continuity.Monotonic?
  }

  /** The book is true of its own id. */
  ghost predicate TrueOfLast(h: History, b: Sourced) {
    b.last.Some? ==> b.levels == TrueBook(h, b.last.value)
  }

  // ---------------------------------------------------------------------------
  // One frame
  // ---------------------------------------------------------------------------

  lemma DeltaIsTrue(p: SeqPredicate, h: History, b: Sourced, d: Delta)
    requires !p.Monotonic? && Honest(p, h, d) && !d.isSnapshot && WellFormed(d.levels)
    requires b.last.Some? && TrueOfLast(h, b) && Continuous(p, b.last.value, d)
    ensures b.last.value < d.updateId
    ensures Overlay(b.levels, ReadPrefix(d.levels)) == TrueBook(h, d.updateId)
  {
    OverlayIsPatch(b.levels, ReadPrefix(d.levels));
    Bridge(h, if p.ExactPrev? then d.sequence + 1 else d.sequence, b.last.value, d.updateId);
  }

  /** An accepted frame leaves an uncrossed true book; a rejected one that parses leaves a true book. */
  lemma FrameIsSound(m: ReconstructionModel, h: History, b: Sourced, d: Delta)
    requires Provable(m) && Honest(m.continuity, h, d)
    requires d.isSnapshot || TrueOfLast(h, b)
    ensures var r := ApplyDelta(m, b, d);
            && (r.out != ResyncNeeded ==> r.book.last == Some(d.updateId) && !Crossed(r.book.levels))
            && (r.out != ResyncNeeded || WellFormed(d.levels) ==> TrueOfLast(h, r.book))
  {
    if !d.isSnapshot && b.last.Some? && Continuous(m.continuity, b.last.value, d) && WellFormed(d.levels) {
      DeltaIsTrue(m.continuity, h, b, d);
    }
  }

  /** Outside snapshots the id never moves back, and an accepted delta moves it forward. */
  lemma IdsAdvance(m: ReconstructionModel, h: History, b: Sourced, d: Delta)
    requires Provable(m) && Honest(m.continuity, h, d) && !d.isSnapshot
    ensures var r := ApplyDelta(m, b, d);
            && (b.last.Some? ==> r.book.last.Some? && b.last.value <= r.book.last.value)
            && (r.out != ResyncNeeded ==> b.last.Some? && b.last.value < d.updateId)
  {}

  // ---------------------------------------------------------------------------
  // The log
  // ---------------------------------------------------------------------------

  ghost predicate TrueLog(v: Venue, log: seq<Log>) {
    forall e | e in log && e.Emit? :: e.levels == TrueBook(v(e.pair), e.id) && !Crossed(e.levels)
  }

  /** The id of the pair's newest book since its last snapshot. */
  ghost function Newest(log: seq<Log>, p: Pair): Option<nat> {
    if log == [] then None
    else
      var e := log[|log| - 1];
      if e.pair != p then Newest(log[..|log| - 1], p) else if e.Emit? then Some(e.id) else None
  }

  ghost predicate Increasing(log: seq<Log>) {
    forall i | 0 <= i < |log| && log[i].Emit? ::
      var before := Newest(log[..i], log[i].pair);
      before.Some? ==> before.value < log[i].id
  }

  ghost predicate Tracks(log: seq<Log>, p: Pair, b: Sourced) {
    var n := Newest(log, p);
    n.Some? ==> b.last.Some? && n.value <= b.last.value
  }

  /** `after` is a sound log that says nothing new about any pair but p. */
  ghost predicate Extends(v: Venue, p: Pair, before: seq<Log>, after: seq<Log>) {
    TrueLog(v, after) && Increasing(after) && forall q: Pair | q != p :: Newest(after, q) == Newest(before, q)
  }

  lemma AppendEntry(v: Venue, log: seq<Log>, e: Log)
    requires TrueLog(v, log) && Increasing(log)
    requires e.Emit? ==> e.levels == TrueBook(v(e.pair), e.id) && !Crossed(e.levels)
    requires e.Emit? ==> (Newest(log, e.pair).Some? ==> Newest(log, e.pair).value < e.id)
    ensures Extends(v, e.pair, log, log + [e])
    ensures Newest(log + [e], e.pair) == if e.Emit? then Some(e.id) else None
  {
    var log' := log + [e];
    assert log'[..|log|] == log;
    assert forall i | 0 <= i < |log| :: log'[..i] == log[..i] && log'[i] == log[i];
  }

  /** Logging one `apply` keeps the log sound and in step with the book. */
  lemma LogFrame(m: ReconstructionModel, v: Venue, log: seq<Log>, p: Pair, b: Sourced, d: Delta)
    requires Provable(m) && Honest(m.continuity, v(p), d)
    requires d.isSnapshot || TrueOfLast(v(p), b)
    requires TrueLog(v, log) && Increasing(log) && Tracks(log, p, b)
    ensures var r := ApplyDelta(m, b, d); var log' := log + ApplyLog(p, d, r);
            Extends(v, p, log, log') && Tracks(log', p, r.book)
  {
    var r := ApplyDelta(m, b, d);
    FrameIsSound(m, v(p), b, d);
    var log1 := if d.isSnapshot then log + [Reset(p)] else log;
    if d.isSnapshot {
      AppendEntry(v, log, Reset(p));
    } else {
      IdsAdvance(m, v(p), b, d);
    }
    if r.out != ResyncNeeded {
      var e := Emit(p, r.book.levels, d.updateId);
      AppendEntry(v, log1, e);
      assert log + ApplyLog(p, d, r) == log1 + [e];
    } else {
      assert log + ApplyLog(p, d, r) == log1;
    }
  }

  lemma {:induction false} ReplayIsSound(
    m: ReconstructionModel, v: Venue, log: seq<Log>, p: Pair, b: Sourced, buf: seq<Delta>, snapId: nat)
    requires Provable(m) && TrueOfLast(v(p), b)
    requires forall d | d in buf :: Honest(m.continuity, v(p), d)
    requires TrueLog(v, log) && Increasing(log) && Tracks(log, p, b)
    ensures var rep := Replay(m, p, b, buf, snapId);
            && Extends(v, p, log, log + rep.log)
            && Tracks(log + rep.log, p, rep.book)
            && (rep.stuck == [] ==> TrueOfLast(v(p), rep.book))
            && (forall d | d in rep.stuck :: d in buf)
    decreases |buf|
  {
    if buf == [] {
      assert log + [] == log;
    } else if buf[0].updateId <= snapId {
      ReplayIsSound(m, v, log, p, b, buf[1..], snapId);
    } else {
      var d := buf[0];
      var r := ApplyDelta(m, b, d);
      FrameIsSound(m, v(p), b, d);
      LogFrame(m, v, log, p, b, d);
      if r.out != ResyncNeeded {
        var log' := log + ApplyLog(p, d, r);
        ReplayIsSound(m, v, log', p, r.book, buf[1..], snapId);
        ReplayAccepts(m, p, b, buf, snapId, log);
        var rest := Replay(m, p, r.book, buf[1..], snapId);
        ExtendsTwice(v, p, log, log', log' + rest.log);
      }
    }
  }

  lemma ReplayAccepts(m: ReconstructionModel, p: Pair, b: Sourced, buf: seq<Delta>, snapId: nat, log: seq<Log>)
    requires buf != [] && buf[0].updateId > snapId && ApplyDelta(m, b, buf[0]).out != ResyncNeeded
    ensures var r := ApplyDelta(m, b, buf[0]);
            var rep, rest := Replay(m, p, b, buf, snapId), Replay(m, p, r.book, buf[1..], snapId);
            rep.book == rest.book && rep.stuck == rest.stuck
            && log + rep.log == (log + ApplyLog(p, buf[0], r)) + rest.log
  {}

  lemma ExtendsTwice(v: Venue, p: Pair, a: seq<Log>, b: seq<Log>, c: seq<Log>)
    requires Extends(v, p, a, b) && Extends(v, p, b, c)
    ensures Extends(v, p, a, c)
  {}

  // ---------------------------------------------------------------------------
  // The invariant
  // ---------------------------------------------------------------------------

  ghost predicate PairOk(m: ReconstructionModel, v: Venue, log: seq<Log>, p: Pair, b: PairBook)
    requires m.SeqDelta?
  {
    && (forall d | d in Buffered(b.phase) :: Honest(m.continuity, v(p), d))
    && (b.phase.Passthrough? ==> TrueOfLast(v(p), b.book))
    && Tracks(log, p, b.book)
  }

  ghost predicate Inv(cfg: Config, v: Venue, s: State)
    requires cfg.model.SeqDelta?
  {
    && TrueLog(v, s.log)
    && Increasing(s.log)
    && (s.exit.None? ==> forall p | p in s.books :: PairOk(cfg.model, v, s.log, p, s.books[p]))
  }

  /**
   The one hazard: a seed that does not parse must not reach a pair that is already streaming. The
   runtime leaves such a pair streaming on a half-loaded book (see `UnparsedSeedCorrupts`).
   */
  ghost predicate SeedParses(s: State, ev: Event) {
    ev.SeedOk? && ev.pair in s.books && s.books[ev.pair].phase.Passthrough? ==> WellFormed(ev.snapshot.levels)
  }

  lemma ReseedKeepsInv(cfg: Config, v: Venue, s: State, p: Pair)
    requires cfg.model.SeqDelta? && Inv(cfg, v, s)
    ensures Inv(cfg, v, RequestReseed(cfg, s, p))
  {}

  /** Replacing one pair's book under a log that only speaks of that pair. */
  lemma PairUpdateKeepsInv(cfg: Config, v: Venue, s: State, p: Pair, b: PairBook, log: seq<Log>)
    requires cfg.model.SeqDelta? && Inv(cfg, v, s) && s.exit.None?
    requires Extends(v, p, s.log, log) && PairOk(cfg.model, v, log, p, b)
    ensures Inv(cfg, v, s.(books := s.books[p := b], log := log))
  {
    forall q | q in s.books && q != p
      ensures PairOk(cfg.model, v, log, q, s.books[q])
    {
      assert PairOk(cfg.model, v, s.log, q, s.books[q]);
      assert Newest(log, q) == Newest(s.log, q);
    }
  }

  lemma SeedKeepsInv(cfg: Config, v: Venue, s: State, p: Pair, snapshot: Delta)
    requires Provable(cfg.model) && Inv(cfg, v, s) && s.exit.None?
    requires snapshot.isSnapshot && Honest(cfg.model.continuity, v(p), snapshot)
    requires p in s.books && s.books[p].phase.Passthrough? ==> WellFormed(snapshot.levels)
    ensures Inv(cfg, v, ApplySeed(cfg, s, p, snapshot))
  {
    if p in s.books {
      var b := s.books[p];
      var r := ApplyDelta(cfg.model, b.book, snapshot);
      FrameIsSound(cfg.model, v(p), b.book, snapshot);
      LogFrame(cfg.model, v, s.log, p, b.book, snapshot);
      if r.out == ResyncNeeded {
        var log := s.log + ApplyLog(p, snapshot, r);
        var s' := s.(books := s.books[p := b.(book := r.book)], log := log);
        PairUpdateKeepsInv(cfg, v, s, p, b.(book := r.book), log);
        ReseedKeepsInv(cfg, v, s', p);
      } else {
        ReplayKeepsInv(cfg, v, s, p, snapshot, r);
      }
    }
  }

  lemma ReplayKeepsInv(cfg: Config, v: Venue, s: State, p: Pair, snapshot: Delta, r: Outcome)
    requires Provable(cfg.model) && Inv(cfg, v, s) && s.exit.None? && p in s.books
    requires r == ApplyDelta(cfg.model, s.books[p].book, snapshot) && r.out != ResyncNeeded
    requires TrueOfLast(v(p), r.book)
    requires var log := s.log + ApplyLog(p, snapshot, r); Extends(v, p, s.log, log) && Tracks(log, p, r.book)
    ensures Inv(cfg, v, ApplySeed(cfg, s, p, snapshot))
  {
    var b := s.books[p];
    var seeded := s.log + ApplyLog(p, snapshot, r);
    ReplayIsSound(cfg.model, v, seeded, p, r.book, Buffered(b.phase), snapshot.updateId);
    var rep := Replay(cfg.model, p, r.book, Buffered(b.phase), snapshot.updateId);
    var log := seeded + rep.log;
    if rep.stuck == [] {
      PairUpdateKeepsInv(cfg, v, s, p, b.(book := rep.book, phase := Passthrough, reseeds := 0, fetches := 0), log);
    } else if cfg.hasSeeder && b.reseeds < MAX_RESEEDS {
      var b' := b.(book := rep.book, phase := Buffering(Cap(rep.stuck)));
      PairUpdateKeepsInv(cfg, v, s, p, b', log);
      ReseedKeepsInv(cfg, v, s.(books := s.books[p := b'], log := log), p);
    }
  }

  lemma FrameKeepsInv(cfg: Config, v: Venue, s: State, p: Pair, d: Delta)
    requires Provable(cfg.model) && Inv(cfg, v, s) && s.exit.None?
    requires Honest(cfg.model.continuity, v(p), d)
    ensures Inv(cfg, v, HandleFrame(cfg, s, p, d))
  {
    if p in s.books {
      var b := s.books[p];
      if b.phase.Passthrough? {
        StreamingFrameKeepsInv(cfg, v, s, p, d);
      } else if d.isSnapshot {
        SeedKeepsInv(cfg, v, s, p, d);
      } else {
        PairUpdateKeepsInv(cfg, v, s, p, b.(phase := Buffering(Push(b.phase.buf, d))), s.log);
      }
    }
  }

  lemma StreamingFrameKeepsInv(cfg: Config, v: Venue, s: State, p: Pair, d: Delta)
    requires Provable(cfg.model) && Inv(cfg, v, s) && s.exit.None?
    requires Honest(cfg.model.continuity, v(p), d)
    requires p in s.books && s.books[p].phase.Passthrough?
    ensures Inv(cfg, v, HandleFrame(cfg, s, p, d))
  {
    var b := s.books[p];
    var r := ApplyDelta(cfg.model, b.book, d);
    FrameIsSound(cfg.model, v(p), b.book, d);
    LogFrame(cfg.model, v, s.log, p, b.book, d);
    var log := s.log + ApplyLog(p, d, r);
    if r.out != ResyncNeeded {
      PairUpdateKeepsInv(cfg, v, s, p, b.(book := r.book), log);
    } else if cfg.hasSeeder && b.reseeds < MAX_RESEEDS {
      var b' := b.(book := r.book, phase := Buffering([d]));
      PairUpdateKeepsInv(cfg, v, s, p, b', log);
      ReseedKeepsInv(cfg, v, s.(books := s.books[p := b'], log := log), p);
    }
  }

  lemma StepKeepsInv(cfg: Config, v: Venue, s: State, ev: Event)
    requires Provable(cfg.model) && Inv(cfg, v, s)
    requires HonestEvent(cfg.model.continuity, v, ev) && SeedParses(s, ev)
    ensures Inv(cfg, v, Step(cfg, s, ev))
  {
    if Possible(cfg, s, ev) {
      TurnKeepsInv(cfg, v, s, ev);
      LoopTestKeepsInv(cfg, v, Turn(cfg, s, ev));
    }
  }

  lemma LoopTestKeepsInv(cfg: Config, v: Venue, s: State)
    requires cfg.model.SeqDelta? && Inv(cfg, v, s)
    ensures Inv(cfg, v, LoopTest(s))
  {}

  lemma LandedKeepsInv(cfg: Config, v: Venue, s: State, p: Pair)
    requires cfg.model.SeqDelta? && Inv(cfg, v, s)
    ensures Inv(cfg, v, SeedLanded(s, p))
  {}

  lemma TurnKeepsInv(cfg: Config, v: Venue, s: State, ev: Event)
    requires Provable(cfg.model) && Inv(cfg, v, s) && s.exit.None?
    requires HonestEvent(cfg.model.continuity, v, ev) && SeedParses(s, ev) && (ev.SeedOk? ==> ev.snapshot.isSnapshot)
    ensures Inv(cfg, v, Turn(cfg, s, ev))
  {
    match ev
    case Frame(p, d) => FrameKeepsInv(cfg, v, s, p, d);
    case SeedOk(p, snapshot) =>
      LandedKeepsInv(cfg, v, s, p);
      SeedKeepsInv(cfg, v, SeedLanded(s, p), p, snapshot);
    case SeedErr(p) =>
      LandedKeepsInv(cfg, v, s, p);
      ReseedKeepsInv(cfg, v, SeedLanded(s, p), p);
    case _ =>
  }

  // ---------------------------------------------------------------------------
  // Whole runs
  // ---------------------------------------------------------------------------

  /** Every event is honest, and every seed handed to a streaming pair parses. */
  ghost predicate HonestRun(cfg: Config, v: Venue, s: State, evs: seq<Event>)
    requires cfg.model.SeqDelta?
  {
    forall i | 0 <= i < |evs| ::
      HonestEvent(cfg.model.continuity, v, evs[i]) && SeedParses(Run(cfg, s, evs[..i]), evs[i])
  }

  lemma {:induction false} RunKeepsInv(cfg: Config, v: Venue, s: State, evs: seq<Event>)
    requires Provable(cfg.model) && Inv(cfg, v, s) && HonestRun(cfg, v, s, evs)
    ensures Inv(cfg, v, Run(cfg, s, evs))
  {
    if evs != [] {
      var init := evs[..|evs| - 1];
      assert forall i | 0 <= i < |init| :: init[..i] == evs[..i];
      RunKeepsInv(cfg, v, s, init);
      StepKeepsInv(cfg, v, Run(cfg, s, init), evs[|evs| - 1]);
    }
  }

  lemma {:induction false} IncreasingBetween(log: seq<Log>, i: nat, j: nat)
    requires Increasing(log) && i < j < |log|
    requires log[i].Emit? && log[j].Emit? && log[i].pair == log[j].pair
    requires forall k | i < k < j :: log[k] != Reset(log[i].pair)
    ensures log[i].id < log[j].id
    decreases j
  {
    var p := log[i].pair;
    NewestAfter(log, i, j);
    assert Newest(log[..j], p).value < log[j].id;
  }

  /** The newest id at j is at least the id sent at i when no snapshot came in between. */
  lemma {:induction false} NewestAfter(log: seq<Log>, i: nat, j: nat)
    requires Increasing(log) && i < j <= |log| && log[i].Emit?
    requires forall k | i < k < j :: log[k] != Reset(log[i].pair)
    ensures Newest(log[..j], log[i].pair).Some?
    ensures log[i].id <= Newest(log[..j], log[i].pair).value
    decreases j
  {
    assert log[..j][..j - 1] == log[..j - 1];
    if i < j - 1 {
      NewestAfter(log, i, j - 1);
    }
  }

  /**
   Soundness. In every run from start-up, with honest frames lost, duplicated and reordered at will,
   seeds landing late, early or failing, and buffers overflowing: every emitted book is the venue's
   true book at its id and is not crossed, and between two snapshots of a pair the ids only grow.
   */
  lemma ReconstructionIsSound(cfg: Config, v: Venue, pairs: set<Pair>, evs: seq<Event>)
    requires Provable(cfg.model) && HonestRun(cfg, v, Start(cfg, pairs), evs)
    ensures var log := Run(cfg, Start(cfg, pairs), evs).log;
            && (forall e | e in log && e.Emit? :: e.levels == TrueBook(v(e.pair), e.id) && !Crossed(e.levels))
            && (forall i, j | 0 <= i < j < |log| && log[i].Emit? && log[j].Emit? && log[i].pair == log[j].pair
                  && (forall k | i < k < j :: log[k] != Reset(log[i].pair)) :: log[i].id < log[j].id)
  {
    RunKeepsInv(cfg, v, Start(cfg, pairs), evs);
    var log := Run(cfg, Start(cfg, pairs), evs).log;
    forall i, j | 0 <= i < j < |log| && log[i].Emit? && log[j].Emit? && log[i].pair == log[j].pair
      && (forall k | i < k < j :: log[k] != Reset(log[i].pair))
      ensures log[i].id < log[j].id
    {
      IncreasingBetween(log, i, j);
    }
  }
}
