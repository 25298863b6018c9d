/**
 What a waiting pair has buffered: the deltas that came for it, all of them, in the order they came,
 up to the cap. And what a run that has not ended has not seen.
 */
module RuntimeBuffering {
  import opened Wrappers
  import opened Levels
  import opened Reconstruction
  import opened Runtime
  import opened RuntimeSoundness
  import opened RuntimeCompleteness

  // ---------------------------------------------------------------------------
  // What came, read off the events
  // ---------------------------------------------------------------------------

  /** The deltas that came for the pair from event `from` on, while the stream was open. */
  ghost function Arrived(evs: seq<Event>, p: Pair, from: nat): seq<Delta> {
    if |evs| <= from then []
    else
      var init, ev := evs[..|evs| - 1], evs[|evs| - 1];
      Arrived(init, p, from)
      + if ev.Frame? && ev.pair == p && !ev.delta.isSnapshot && StreamEnd !in init then [ev.delta] else []
  }

  /** The newest 100 000. */
  ghost function Latest(ds: seq<Delta>): seq<Delta> {
    if |ds| <= 100_000 then ds else ds[|ds| - 100_000..]
  }

  ghost predicate Waits(s: State, p: Pair) {
    p in s.books && s.books[p].phase.Buffering?
  }

  /** The event brings the pair a snapshot. */
  ghost predicate Brings(cfg: Config, s: State, ev: Event, p: Pair) {
    && Possible(cfg, s, ev)
    && ((ev.SeedOk? && ev.pair == p) || (ev.Frame? && ev.pair == p && ev.delta.isSnapshot))
  }

  ghost function Brought(ev: Event): Delta
    requires ev.SeedOk? || ev.Frame?
  {
    if ev.SeedOk? then ev.snapshot else ev.delta
  }

  /** Since when a pair waits, and what was already in its hands then. */
  datatype Wait = Wait(from: nat, head: seq<Delta>)

  /**
   A pair that waits from the start has nothing in hand; one that was streaming has the frame that
   gapped; one whose seed was taken but did not reconcile has what the replay could not take.
   */
  ghost function Waiting(cfg: Config, pairs: set<Pair>, evs: seq<Event>, p: Pair): Wait {
    if evs == [] then Wait(0, [])
    else
      var init, ev := evs[..|evs| - 1], evs[|evs| - 1];
      var t, before := Run(cfg, Start(cfg, pairs), init), Waiting(cfg, pairs, init, p);
      if !Waits(Run(cfg, Start(cfg, pairs), evs), p) then Wait(|evs|, [])
      else if !Waits(t, p) then Wait(|evs|, if ev.Frame? then [ev.delta] else [])
      else if Brings(cfg, t, ev, p) then
        var r := ApplyDelta(cfg.model, t.books[p].book, Brought(ev));
        if r.out == ResyncNeeded then before
        else
          var buf := Latest(before.head + Arrived(init, p, before.from));
          Wait(|evs|, Replay(cfg.model, p, r.book, buf, Brought(ev).updateId).stuck)
      else before
  }

  // ---------------------------------------------------------------------------
  // What a replay does
  // ---------------------------------------------------------------------------

  /** One delta after another, whatever comes of them. */
  ghost function ApplyEach(m: ReconstructionModel, b: Sourced, ds: seq<Delta>): Sourced
    decreases |ds|
  {
    if ds == [] then b else ApplyEach(m, ApplyDelta(m, b, ds[0]).book, ds[1..])
  }

  ghost predicate AllTaken(m: ReconstructionModel, b: Sourced, ds: seq<Delta>)
    decreases |ds|
  {
    ds == [] || (ApplyDelta(m, b, ds[0]).out != ResyncNeeded && AllTaken(m, ApplyDelta(m, b, ds[0]).book, ds[1..]))
  }

  /** The replay took what the snapshot does not cover of the first k, and left the rest. */
  ghost predicate ReplayedTo(
    m: ReconstructionModel, b: Sourced, buf: seq<Delta>, snapId: nat, rep: Replayed, k: nat)
  {
    && k <= |buf| && rep.stuck == buf[k..]
    && var taken := Uncovered(buf[..k], snapId);
       && AllTaken(m, b, taken)
       && (k == |buf| ==> rep.book == ApplyEach(m, b, taken))
       && (k < |buf| ==>
             && buf[k].updateId > snapId
             && var r := ApplyDelta(m, ApplyEach(m, b, taken), buf[k]);
                r.out == ResyncNeeded && rep.book == r.book)
  }

  lemma CoveredFirst(m: ReconstructionModel, b: Sourced, buf: seq<Delta>, snapId: nat, rep: Replayed, k: nat)
    requires buf != [] && buf[0].updateId <= snapId && ReplayedTo(m, b, buf[1..], snapId, rep, k)
    ensures ReplayedTo(m, b, buf, snapId, rep, k + 1)
  {
    TakeMore(buf, k + 1, snapId);
    assert [] + Uncovered(buf[1..][..k], snapId) == Uncovered(buf[1..][..k], snapId);
  }

  lemma TakenFirst(
    m: ReconstructionModel, b: Sourced, buf: seq<Delta>, snapId: nat, rest: Replayed, rep: Replayed, k: nat)
    requires buf != [] && buf[0].updateId > snapId && ApplyDelta(m, b, buf[0]).out != ResyncNeeded
    requires ReplayedTo(m, ApplyDelta(m, b, buf[0]).book, buf[1..], snapId, rest, k)
    requires rep.book == rest.book && rep.stuck == rest.stuck
    ensures ReplayedTo(m, b, buf, snapId, rep, k + 1)
  {
    TakeMore(buf, k + 1, snapId);
    ApplyFirst(m, b, buf[0], Uncovered(buf[1..][..k], snapId));
  }

  lemma NothingTaken(m: ReconstructionModel, p: Pair, b: Sourced, buf: seq<Delta>, snapId: nat)
    requires buf == [] || (buf[0].updateId > snapId && ApplyDelta(m, b, buf[0]).out == ResyncNeeded)
    ensures ReplayedTo(m, b, buf, snapId, Replay(m, p, b, buf, snapId), 0)
  {
    assert buf[..0] == [] && buf[0..] == buf;
  }

  lemma ApplyFirst(m: ReconstructionModel, b: Sourced, d: Delta, rest: seq<Delta>)
    ensures ApplyEach(m, b, [d] + rest) == ApplyEach(m, ApplyDelta(m, b, d).book, rest)
    ensures AllTaken(m, b, [d] + rest) <==>
            ApplyDelta(m, b, d).out != ResyncNeeded && AllTaken(m, ApplyDelta(m, b, d).book, rest)
  {
    assert ([d] + rest)[1..] == rest;
  }

  /**
   A replay takes, in order, every delta the snapshot does not cover, up to the first the book refuses;
   that one and everything behind it are left.
   */
  lemma {:induction false} ReplayMeans(
    m: ReconstructionModel, p: Pair, b: Sourced, buf: seq<Delta>, snapId: nat) returns (k: nat)
    ensures ReplayedTo(m, b, buf, snapId, Replay(m, p, b, buf, snapId), k)
    decreases |buf|
  {
    k := 0;
    if buf == [] || (buf[0].updateId > snapId && ApplyDelta(m, b, buf[0]).out == ResyncNeeded) {
      NothingTaken(m, p, b, buf, snapId);
    } else if buf[0].updateId <= snapId {
      k := ReplayMeans(m, p, b, buf[1..], snapId);
      CoveredFirst(m, b, buf, snapId, Replay(m, p, b, buf[1..], snapId), k);
      k := k + 1;
    } else {
      var b' := ApplyDelta(m, b, buf[0]).book;
      k := ReplayMeans(m, p, b', buf[1..], snapId);
      TakenFirst(m, b, buf, snapId, Replay(m, p, b', buf[1..], snapId), Replay(m, p, b, buf, snapId), k);
      k := k + 1;
    }
  }

  lemma TakeMore(buf: seq<Delta>, k: nat, snapId: nat)
    requires 0 < k <= |buf|
    ensures buf[1..][k - 1..] == buf[k..]
    ensures Uncovered(buf[..k], snapId)
            == (if buf[0].updateId <= snapId then [] else [buf[0]]) + Uncovered(buf[1..][..k - 1], snapId)
  {
    assert buf[..k][1..] == buf[1..][..k - 1];
  }

  // ---------------------------------------------------------------------------
  // One event
  // ---------------------------------------------------------------------------

  lemma PushIsLatest(ds: seq<Delta>, d: Delta)
    ensures Push(Latest(ds), d) == Latest(ds + [d])
  {}

  /** What becomes of a pair a snapshot is brought to. */
  lemma SeedFate(cfg: Config, s: State, p: Pair, snapshot: Delta)
    requires p in s.books
    ensures var s' := ApplySeed(cfg, s, p, snapshot);
            var r := ApplyDelta(cfg.model, s.books[p].book, snapshot);
            var stuck := Replay(cfg.model, p, r.book, Buffered(s.books[p].phase), snapshot.updateId).stuck;
            && p in s'.books
            && (r.out == ResyncNeeded ==> s'.books[p].phase == s.books[p].phase)
            && (r.out != ResyncNeeded && stuck == [] ==> s'.books[p].phase == Passthrough)
            && (r.out != ResyncNeeded && stuck != [] && s'.exit.None? ==> s'.books[p].phase == Buffering(Latest(stuck)))
  {
    var r := ApplyDelta(cfg.model, s.books[p].book, snapshot);
    var stuck := Replay(cfg.model, p, r.book, Buffered(s.books[p].phase), snapshot.updateId).stuck;
    assert Cap(stuck) == Latest(stuck);
  }

  /**
   What becomes of a pair a frame comes for. Waiting, it keeps a delta behind what it has. Streaming, it
   goes on when the book takes the frame; when the book refuses, it waits with that frame in hand and a
   fetch out if there is a seeder and fewer than 8 re-seeds were spent, and the run ends if not.
   */
  lemma FrameFate(cfg: Config, s: State, p: Pair, d: Delta)
    requires p in s.books && s.exit.None?
    ensures var s' := HandleFrame(cfg, s, p, d); var b := s.books[p];
            var refused := ApplyDelta(cfg.model, b.book, d).out == ResyncNeeded;
            && p in s'.books
            && (b.phase.Buffering? && !d.isSnapshot ==>
                  s'.books[p].phase == Buffering(Push(b.phase.buf, d)) && s'.exit.None?)
            && (b.phase.Passthrough? && !refused ==> s'.books[p].phase == Passthrough && s'.exit.None?)
            && (b.phase.Passthrough? && refused ==>
                  if cfg.hasSeeder && b.reseeds < 8
                  then s'.books[p].phase == Buffering([d]) && s'.books[p].seeding && s'.exit.None?
                  else s'.exit == Some(ResyncRequired))
  {}

  lemma SeedOthersKeep(cfg: Config, s: State, p: Pair, snapshot: Delta)
    ensures ApplySeed(cfg, s, p, snapshot).books.Keys == s.books.Keys
    ensures forall q | q in s.books && q != p :: ApplySeed(cfg, s, p, snapshot).books[q] == s.books[q]
    ensures ApplySeed(cfg, s, p, snapshot).eventsDone == s.eventsDone
  {}

  lemma FrameOthersKeep(cfg: Config, s: State, p: Pair, d: Delta)
    ensures HandleFrame(cfg, s, p, d).books.Keys == s.books.Keys
    ensures forall q | q in s.books && q != p :: HandleFrame(cfg, s, p, d).books[q] == s.books[q]
    ensures HandleFrame(cfg, s, p, d).eventsDone == s.eventsDone
  {
    SeedOthersKeep(cfg, s, p, d);
  }

  lemma LandedOthersKeep(s: State, p: Pair)
    ensures SeedLanded(s, p).books.Keys == s.books.Keys && SeedLanded(s, p).eventsDone == s.eventsDone
    ensures forall q | q in s.books && q != p :: SeedLanded(s, p).books[q] == s.books[q]
  {}

  lemma FailedOthersKeep(cfg: Config, s: State, p: Pair)
    ensures SeedFailed(cfg, s, p).books.Keys == s.books.Keys && SeedFailed(cfg, s, p).eventsDone == s.eventsDone
    ensures forall q | q in s.books && q != p :: SeedFailed(cfg, s, p).books[q] == s.books[q]
  {}

  /** The pair an event is about. */
  ghost predicate About(ev: Event, p: Pair) {
    (ev.Frame? || ev.SeedOk? || ev.SeedErr?) && ev.pair == p
  }

  lemma TurnOthersKeep(cfg: Config, s: State, ev: Event)
    ensures var s' := Turn(cfg, s, ev);
            && s'.books.Keys == s.books.Keys && s'.eventsDone == (s.eventsDone || ev == StreamEnd)
            && (!ev.ConnectionGap? ==> forall q | q in s.books && !About(ev, q) :: s'.books[q] == s.books[q])
  {
    match ev
    case Frame(p, d) => FrameOthersKeep(cfg, s, p, d);
    case SeedOk(p, snapshot) =>
      LandedOthersKeep(s, p);
      SeedOthersKeep(cfg, SeedLanded(s, p), p, snapshot);
    case SeedErr(p) =>
      LandedOthersKeep(s, p);
      FailedOthersKeep(cfg, SeedLanded(s, p), p);
    case _ =>
  }

  lemma LandedFate(s: State, p: Pair)
    requires p in s.books
    ensures var s' := SeedLanded(s, p);
            p in s'.books && s'.books[p].phase == s.books[p].phase && s'.books[p].book == s.books[p].book
            && s'.exit == s.exit
  {}

  /** What is true of a pair after an event, of its phase before and the event alone. */
  ghost predicate Fate(cfg: Config, s: State, s': State, ev: Event, p: Pair)
    requires p in s.books
  {
    && p in s'.books
    && (Brings(cfg, s, ev, p) ==>
          var r := ApplyDelta(cfg.model, s.books[p].book, Brought(ev));
          var stuck := Replay(cfg.model, p, r.book, Buffered(s.books[p].phase), Brought(ev).updateId).stuck;
          s.books[p].phase.Buffering? ==>
            if r.out == ResyncNeeded then s'.books[p].phase == s.books[p].phase
            else if stuck == [] then s'.books[p].phase == Passthrough
            else s'.books[p].phase == Buffering(Latest(stuck)))
    && (!Brings(cfg, s, ev, p) && s.books[p].phase.Buffering? ==>
          if Possible(cfg, s, ev) && ev.Frame? && ev.pair == p
          then s'.books[p].phase == Buffering(Push(s.books[p].phase.buf, ev.delta))
          else s'.books[p].phase == s.books[p].phase)
    && (s.books[p].phase.Passthrough? && s'.books[p].phase.Buffering? ==>
          ev.Frame? && ev.pair == p && s'.books[p].phase == Buffering([ev.delta]))
  }

  lemma StepFate(cfg: Config, s: State, ev: Event, p: Pair)
    requires p in s.books && s.exit.None? && Step(cfg, s, ev).exit.None?
    ensures Fate(cfg, s, Step(cfg, s, ev), ev, p)
  {
    if Possible(cfg, s, ev) {
      if !About(ev, p) {
        TurnOthersKeep(cfg, s, ev);
      } else if ev.Frame? {
        FrameStepFate(cfg, s, ev, p);
      } else if ev.SeedOk? {
        SeedStepFate(cfg, s, ev, p);
      }
    }
  }

  lemma FrameStepFate(cfg: Config, s: State, ev: Event, p: Pair)
    requires p in s.books && s.exit.None? && Step(cfg, s, ev).exit.None? && Possible(cfg, s, ev)
    requires ev.Frame? && ev.pair == p
    ensures Fate(cfg, s, Step(cfg, s, ev), ev, p)
  {
    FrameFate(cfg, s, p, ev.delta);
    SeedFate(cfg, s, p, ev.delta);
  }

  lemma SeedStepFate(cfg: Config, s: State, ev: Event, p: Pair)
    requires p in s.books && s.exit.None? && Step(cfg, s, ev).exit.None? && Possible(cfg, s, ev)
    requires ev.SeedOk? && ev.pair == p
    ensures Fate(cfg, s, Step(cfg, s, ev), ev, p)
  {
    LandedFate(s, p);
    SeedFate(cfg, SeedLanded(s, p), p, ev.snapshot);
  }

  lemma ExitStays(cfg: Config, s: State, ev: Event)
    ensures s.exit.Some? ==> Step(cfg, s, ev) == s
    ensures Step(cfg, s, ev).exit.None? ==> (Step(cfg, s, ev).eventsDone <==> s.eventsDone || ev == StreamEnd)
    ensures Step(cfg, s, ev).books.Keys == s.books.Keys
  {
    if Possible(cfg, s, ev) {
      TurnOthersKeep(cfg, s, ev);
      LoopTestKeeps(Turn(cfg, s, ev));
    }
  }

  lemma LoopTestKeeps(s: State)
    ensures LoopTest(s).books == s.books && LoopTest(s).eventsDone == s.eventsDone
  {}

  // ---------------------------------------------------------------------------
  // Runs
  // ---------------------------------------------------------------------------

  ghost predicate BufferOk(cfg: Config, pairs: set<Pair>, evs: seq<Event>, p: Pair) {
    var s, w := Run(cfg, Start(cfg, pairs), evs), Waiting(cfg, pairs, evs, p);
    Waits(s, p) ==> w.from <= |evs| && s.books[p].phase.buf == Latest(w.head + Arrived(evs, p, w.from))
  }

  lemma ArrivedSnoc(init: seq<Event>, ev: Event, p: Pair, from: nat)
    requires from <= |init|
    ensures Arrived(init + [ev], p, from)
            == Arrived(init, p, from)
               + if ev.Frame? && ev.pair == p && !ev.delta.isSnapshot && StreamEnd !in init then [ev.delta] else []
  {
    assert (init + [ev])[..|init|] == init;
  }

  lemma ArrivedNothing(evs: seq<Event>, p: Pair)
    ensures Arrived(evs, p, |evs|) == []
  {}

  lemma WaitingSnoc(cfg: Config, pairs: set<Pair>, init: seq<Event>, ev: Event, p: Pair)
    ensures var evs := init + [ev];
            var t, t' := Run(cfg, Start(cfg, pairs), init), Run(cfg, Start(cfg, pairs), evs);
            var before := Waiting(cfg, pairs, init, p);
            && t' == Step(cfg, t, ev)
            && Waiting(cfg, pairs, evs, p) ==
               if !Waits(t', p) then Wait(|evs|, [])
               else if !Waits(t, p) then Wait(|evs|, if ev.Frame? then [ev.delta] else [])
               else if Brings(cfg, t, ev, p) then
                 var r := ApplyDelta(cfg.model, t.books[p].book, Brought(ev));
                 if r.out == ResyncNeeded then before
                 else
                   var buf := Latest(before.head + Arrived(init, p, before.from));
                   Wait(|evs|, Replay(cfg.model, p, r.book, buf, Brought(ev).updateId).stuck)
               else before
  {
    assert (init + [ev])[..|init|] == init;
  }

  /** What a pair has been given, after one more event. */
  ghost function Given(cfg: Config, t: State, ev: Event, p: Pair, given: seq<Delta>): seq<Delta> {
    if !Waits(t, p) then if ev.Frame? then [ev.delta] else []
    else if Brings(cfg, t, ev, p) then
      var r := ApplyDelta(cfg.model, t.books[p].book, Brought(ev));
      if r.out == ResyncNeeded then given
      else Replay(cfg.model, p, r.book, Latest(given), Brought(ev).updateId).stuck
    else if Possible(cfg, t, ev) && ev.Frame? && ev.pair == p then given + [ev.delta]
    else given
  }

  lemma GivenIsBuffered(cfg: Config, t: State, t': State, ev: Event, p: Pair, given: seq<Delta>)
    requires p in t.books && Fate(cfg, t, t', ev, p)
    requires Waits(t, p) ==> t.books[p].phase.buf == Latest(given)
    ensures Waits(t', p) ==> t'.books[p].phase.buf == Latest(Given(cfg, t, ev, p, given))
  {
    if Waits(t, p) && !Brings(cfg, t, ev, p) && ev.Frame? {
      PushIsLatest(given, ev.delta);
    }
  }

  lemma BufferStep(cfg: Config, pairs: set<Pair>, init: seq<Event>, ev: Event, p: Pair)
    requires var t := Run(cfg, Start(cfg, pairs), init);
             p in t.books && t.exit.None? && (t.eventsDone <==> StreamEnd in init)
    requires Run(cfg, Start(cfg, pairs), init + [ev]).exit.None? && BufferOk(cfg, pairs, init, p)
    ensures BufferOk(cfg, pairs, init + [ev], p)
  {
    var t, before := Run(cfg, Start(cfg, pairs), init), Waiting(cfg, pairs, init, p);
    var t', w := Run(cfg, Start(cfg, pairs), init + [ev]), Waiting(cfg, pairs, init + [ev], p);
    var given := before.head + Arrived(init, p, before.from);
    WaitingSnoc(cfg, pairs, init, ev, p);
    StepFate(cfg, t, ev, p);
    GivenIsBuffered(cfg, t, t', ev, p, given);
    ArrivedNothing(init + [ev], p);
    if Waits(t, p) && Waits(t', p) && w == before {
      ArrivedSnoc(init, ev, p, before.from);
      GivenGrows(cfg, t, init, ev, p, before, given);
    }
  }

  lemma GivenGrows(cfg: Config, t: State, init: seq<Event>, ev: Event, p: Pair, w: Wait, given: seq<Delta>)
    requires Waits(t, p) && t.exit.None? && (t.eventsDone <==> StreamEnd in init)
    requires w.from <= |init| && given == w.head + Arrived(init, p, w.from)
    requires Brings(cfg, t, ev, p) ==> ApplyDelta(cfg.model, t.books[p].book, Brought(ev)).out == ResyncNeeded
    ensures Given(cfg, t, ev, p, given) == w.head + Arrived(init + [ev], p, w.from)
  {
    ArrivedSnoc(init, ev, p, w.from);
    assert given + [] == given;
  }

  ghost predicate Facts(pairs: set<Pair>, evs: seq<Event>, s: State) {
    s.books.Keys == pairs && (s.exit.None? ==> (s.eventsDone <==> StreamEnd in evs))
  }

  lemma FactsStep(cfg: Config, pairs: set<Pair>, init: seq<Event>, ev: Event, t: State)
    requires Facts(pairs, init, t)
    ensures Facts(pairs, init + [ev], Step(cfg, t, ev))
  {
    ExitStays(cfg, t, ev);
  }

  lemma {:induction false} RunFacts(cfg: Config, pairs: set<Pair>, evs: seq<Event>)
    ensures Facts(pairs, evs, Run(cfg, Start(cfg, pairs), evs))
  {
    if evs != [] {
      var init, ev := evs[..|evs| - 1], evs[|evs| - 1];
      RunFacts(cfg, pairs, init);
      FactsStep(cfg, pairs, init, ev, Run(cfg, Start(cfg, pairs), init));
      assert evs == init + [ev];
    }
  }

  /**
   Nothing that came is thrown away. In every state of every run that has not ended, a waiting pair's
   buffer is what it had in hand when it began to wait and every delta that has come for it since, in
   that order, down to the newest 100 000.
   */
  lemma {:induction false} BufferIsWhatCame(cfg: Config, pairs: set<Pair>, evs: seq<Event>, p: Pair)
    requires p in pairs && Run(cfg, Start(cfg, pairs), evs).exit.None?
    ensures BufferOk(cfg, pairs, evs, p)
  {
    if evs != [] {
      var init, ev := evs[..|evs| - 1], evs[|evs| - 1];
      assert evs == init + [ev];
      RunFacts(cfg, pairs, init);
      ExitStays(cfg, Run(cfg, Start(cfg, pairs), init), ev);
      BufferIsWhatCame(cfg, pairs, init, p);
      BufferStep(cfg, pairs, init, ev, p);
    }
  }

  /** No event brings the pair a snapshot. */
  ghost predicate NothingBrought(evs: seq<Event>, p: Pair) {
    forall ev | ev in evs :: !(ev.SeedOk? && ev.pair == p) && !(ev.Frame? && ev.pair == p && ev.delta.isSnapshot)
  }

  ghost predicate StartsWaiting(cfg: Config) {
    cfg.model.SeedsOutOfBand() && (cfg.model.NeedsRest() ==> cfg.hasSeeder)
  }

  lemma {:induction false} WaitsSinceStart(cfg: Config, pairs: set<Pair>, evs: seq<Event>, p: Pair)
    requires p in pairs && StartsWaiting(cfg) && NothingBrought(evs, p)
    requires Run(cfg, Start(cfg, pairs), evs).exit.None?
    ensures Waits(Run(cfg, Start(cfg, pairs), evs), p) && Waiting(cfg, pairs, evs, p) == Wait(0, [])
  {
    if evs != [] {
      var init, ev := evs[..|evs| - 1], evs[|evs| - 1];
      var t := Run(cfg, Start(cfg, pairs), init);
      assert evs == init + [ev] && ev in evs;
      RunFacts(cfg, pairs, init);
      ExitStays(cfg, t, ev);
      WaitsSinceStart(cfg, pairs, init, p);
      StepFate(cfg, t, ev, p);
      WaitingSnoc(cfg, pairs, init, ev, p);
    }
  }

  /**
   Completeness from start-up. However other events are mixed in, if the newest deltas that came for a
   pair since the start form a chain that bridges the honest snapshot brought to it, by a fetch or in the
   stream, the pair then streams with a full re-seed budget at the true book of the last delta that came.
   */
  lemma SeedReconcilesFromStart(cfg: Config, h: History, pairs: set<Pair>, evs: seq<Event>, p: Pair, ev: Event)
    requires Provable(cfg.model) && NeverCrossed(h) && p in pairs && StartsWaiting(cfg) && NothingBrought(evs, p)
    requires var s := Run(cfg, Start(cfg, pairs), evs); s.exit.None? && Brings(cfg, s, ev, p)
    requires var snapshot := Brought(ev); var buf := Latest(Arrived(evs, p, 0));
             && snapshot.isSnapshot && WellFormed(snapshot.levels) && Honest(cfg.model.continuity, h, snapshot)
             && Chain(cfg.model.continuity, h, buf) && Bridges(cfg.model.continuity, buf, snapshot.updateId)
    ensures var id := FinalId(Latest(Arrived(evs, p, 0)), Brought(ev).updateId);
            StreamsAt(Run(cfg, Start(cfg, pairs), evs + [ev]), p, h, id)
  {
    var s, buf := Run(cfg, Start(cfg, pairs), evs), Latest(Arrived(evs, p, 0));
    WaitsSinceStart(cfg, pairs, evs, p);
    BufferIsWhatCame(cfg, pairs, evs, p);
    assert [] + Arrived(evs, p, 0) == Arrived(evs, p, 0);
    assert (evs + [ev])[..|evs|] == evs;
    BroughtReconciles(cfg, h, s, p, ev, buf);
  }

  ghost predicate StreamsAt(s: State, p: Pair, h: History, id: nat) {
    && p in s.books && s.books[p].phase.Passthrough? && s.books[p].reseeds == 0 && s.books[p].book.state.Synced?
    && s.books[p].book.last == Some(id) && s.books[p].book.levels == TrueBook(h, id)
  }

  lemma BroughtReconciles(cfg: Config, h: History, s: State, p: Pair, ev: Event, buf: seq<Delta>)
    requires Provable(cfg.model) && NeverCrossed(h)
    requires Waits(s, p) && s.books[p].phase.buf == buf && Brings(cfg, s, ev, p)
    requires var snapshot := Brought(ev);
             && snapshot.isSnapshot && WellFormed(snapshot.levels) && Honest(cfg.model.continuity, h, snapshot)
             && Chain(cfg.model.continuity, h, buf) && Bridges(cfg.model.continuity, buf, snapshot.updateId)
    ensures StreamsAt(Step(cfg, s, ev), p, h, FinalId(buf, Brought(ev).updateId))
  {
    LoopTestKeeps(Turn(cfg, s, ev));
    if ev.SeedOk? {
      LandedFate(s, p);
      SeedReconciles(cfg, h, SeedLanded(s, p), p, ev.snapshot);
      assert StreamsAt(ApplySeed(cfg, SeedLanded(s, p), p, ev.snapshot), p, h, FinalId(buf, ev.snapshot.updateId));
    } else {
      SeedReconciles(cfg, h, s, p, ev.delta);
      assert StreamsAt(ApplySeed(cfg, s, p, ev.delta), p, h, FinalId(buf, ev.delta.updateId));
    }
  }

  /** A connection gap leaves every book empty, without an id, and waiting for nothing, and ends the run. */
  lemma ConnectionGapClears(cfg: Config, s: State)
    requires Possible(cfg, s, ConnectionGap)
    ensures var s' := Step(cfg, s, ConnectionGap);
            && s'.exit == Some(ResyncRequired) && s'.books.Keys == s.books.Keys
            && forall p | p in s.books ::
                 var b := s'.books[p];
                 && b.phase == Passthrough && b.book.state == Gapped && b.book.last == None
                 && b.book.levels == map[] && b.book.orders == map[] && b.book.totals == map[]
  {}

  // ---------------------------------------------------------------------------
  // How a run ends
  // ---------------------------------------------------------------------------

  ghost predicate Ends(cfg: Config, ev: Event, open: bool) {
    || ev.Stop?
    || (ev.ConnectionGap? && open)
    || (ev.SeedDeadline? && ev.expired && AwaitsInBandSeed(cfg))
  }

  lemma SeedExits(cfg: Config, s: State, p: Pair, snapshot: Delta)
    ensures var e := ApplySeed(cfg, s, p, snapshot).exit; e == s.exit || e == Some(ResyncRequired)
  {}

  lemma FrameExits(cfg: Config, s: State, p: Pair, d: Delta)
    ensures var e := HandleFrame(cfg, s, p, d).exit; e == s.exit || e == Some(ResyncRequired)
  {
    SeedExits(cfg, s, p, d);
  }

  lemma TurnFinishes(cfg: Config, s: State, ev: Event)
    requires s.exit.None?
    ensures Turn(cfg, s, ev).exit == Some(Finished) ==> ev.Stop?
  {
    match ev
    case Frame(p, d) => FrameExits(cfg, s, p, d);
    case SeedOk(p, snapshot) => SeedExits(cfg, SeedLanded(s, p), p, snapshot);
    case _ =>
  }

  lemma StepEnds(cfg: Config, s: State, ev: Event)
    requires s.exit.None?
    ensures Ends(cfg, ev, !s.eventsDone) ==> Step(cfg, s, ev).exit.Some?
  {}

  /** The test at the head of the loop. */
  lemma LoopTestMeans(s: State)
    ensures var s' := LoopTest(s);
            && (s'.exit.None? ==> !(s.eventsDone && s.inFlight == 0))
            && (s'.exit == Some(Finished) ==> s.exit == Some(Finished) || (s.eventsDone && s.inFlight == 0))
            && s'.inFlight == s.inFlight && s'.eventsDone == s.eventsDone
  {}

  ghost predicate Running(cfg: Config, evs: seq<Event>, s: State) {
    && (s.exit.None? ==>
          && (forall i | 0 <= i < |evs| :: !Ends(cfg, evs[i], StreamEnd !in evs[..i]))
          && (StreamEnd in evs ==> s.inFlight != 0))
    && (s.exit == Some(Finished) ==> Stop in evs || (StreamEnd in evs && s.inFlight == 0))
  }

  lemma RunningStep(cfg: Config, pairs: set<Pair>, init: seq<Event>, ev: Event, t: State)
    requires Running(cfg, init, t) && Facts(pairs, init, t)
    ensures Running(cfg, init + [ev], Step(cfg, t, ev))
  {
    var evs, t' := init + [ev], Step(cfg, t, ev);
    ExitStays(cfg, t, ev);
    if t.exit.None? {
      StepEnds(cfg, t, ev);
      if Possible(cfg, t, ev) {
        TurnFinishes(cfg, t, ev);
        LoopTestMeans(Turn(cfg, t, ev));
      }
      if t'.exit.None? {
        forall i | 0 <= i < |evs|
          ensures !Ends(cfg, evs[i], StreamEnd !in evs[..i])
        {
          assert evs[..i] == init[..i];
          if i < |init| {
            assert evs[i] == init[i];
          }
        }
      }
    }
  }

  /**
   A run that has not ended has seen no stop, no connection gap while the stream was open, and, on a venue
   that seeds in the stream, no expired deadline; and its stream is open or a fetch is out. It finishes
   only by a stop, or when the stream has ended and nothing is out.
   */
  lemma {:induction false} RunningMeans(cfg: Config, pairs: set<Pair>, evs: seq<Event>)
    ensures Running(cfg, evs, Run(cfg, Start(cfg, pairs), evs))
  {
    if evs != [] {
      var init, ev := evs[..|evs| - 1], evs[|evs| - 1];
      RunningMeans(cfg, pairs, init);
      RunFacts(cfg, pairs, init);
      RunningStep(cfg, pairs, init, ev, Run(cfg, Start(cfg, pairs), init));
      assert evs == init + [ev];
    }
  }
}
