/**
 The retry machinery of aetelier-connect/src/framework/runtime.rs on a REST-seeded run with a
 seeder: no book is left waiting for a fetch nobody made, and the fetches are bounded.
 */
module RuntimeLiveness {
  import opened Wrappers
  import opened Reconstruction
  import opened Runtime

  ghost function SeedingPairs(s: State): set<Pair> {
    set p | p in s.books && s.books[p].seeding
  }

  /** In flight, flagged and spawned are one and the same. */
  ghost predicate FlightOk(s: State) {
    s.outstanding == multiset(SeedingPairs(s)) && s.inFlight == |SeedingPairs(s)|
  }

  ghost predicate BudgetOk(b: PairBook) {
    b.reseeds <= MAX_RESEEDS && b.fetches <= b.reseeds + 1
  }

  /** Every waiting pair has a fetch on its way, and its budget is kept. */
  ghost predicate Attended(s: State) {
    forall p | p in s.books :: s.books[p].phase.Buffering? ==> s.books[p].seeding
  }

  ghost predicate Inv(s: State) {
    && (forall p | p in s.books :: BudgetOk(s.books[p]))
    && (s.exit.None? ==> FlightOk(s) && Attended(s))
  }

  lemma PairFlip(s: State, s': State, p: Pair)
    requires p in s.books && s'.books.Keys == s.books.Keys
    requires forall q | q in s.books && q != p :: s'.books[q].seeding == s.books[q].seeding
    ensures SeedingPairs(s') == if s'.books[p].seeding then SeedingPairs(s) + {p} else SeedingPairs(s) - {p}
  {}

  lemma LandedKeepsFlight(s: State, p: Pair)
    requires FlightOk(s) && p in s.outstanding
    ensures p in s.books && FlightOk(SeedLanded(s, p))
  {
    assert p in SeedingPairs(s);
    PairFlip(s, SeedLanded(s, p), p);
  }

  lemma ReseedKeepsFlight(cfg: Config, s: State, p: Pair)
    requires FlightOk(s)
    ensures FlightOk(RequestReseed(cfg, s, p))
  {
    var s' := RequestReseed(cfg, s, p);
    if s' != s {
      PairFlip(s, s', p);
    }
  }

  /** Every pair other than p is attended. */
  ghost predicate OthersAttended(s: State, p: Pair) {
    forall q | q in s.books && q != p :: s.books[q].phase.Buffering? ==> s.books[q].seeding
  }

  /** A re-seed request inside the budget leaves the pair attended. */
  lemma ReseedAttends(cfg: Config, s: State, p: Pair)
    requires cfg.hasSeeder && p in s.books && s.books[p].reseeds < MAX_RESEEDS
    requires FlightOk(s) && (forall q | q in s.books :: BudgetOk(s.books[q]))
    requires OthersAttended(s, p)
    ensures Inv(RequestReseed(cfg, s, p))
  {
    ReseedKeepsFlight(cfg, s, p);
  }

  lemma SameFlight(s: State, s': State)
    requires FlightOk(s) && s'.books.Keys == s.books.Keys
    requires forall q | q in s.books :: s'.books[q].seeding == s.books[q].seeding
    requires s'.inFlight == s.inFlight && s'.outstanding == s.outstanding
    ensures FlightOk(s')
  {
    assert SeedingPairs(s') == SeedingPairs(s);
  }

  lemma SeedKeepsInv(cfg: Config, s: State, p: Pair, snapshot: Delta)
    requires cfg.hasSeeder && s.exit.None? && p in s.books
    requires FlightOk(s) && OthersAttended(s, p) && forall q | q in s.books :: BudgetOk(s.books[q])
    ensures Inv(ApplySeed(cfg, s, p, snapshot))
  {
    var b := s.books[p];
    var r := ApplyDelta(cfg.model, b.book, snapshot);
    var log := s.log + ApplyLog(p, snapshot, r);
    if r.out == ResyncNeeded {
      var s' := s.(books := s.books[p := b.(book := r.book)], log := log);
      SameFlight(s, s');
      if b.reseeds < MAX_RESEEDS {
        ReseedAttends(cfg, s', p);
      }
    } else {
      ReplayKeepsInv(cfg, s, p, snapshot, r);
    }
  }

  lemma ReplayKeepsInv(cfg: Config, s: State, p: Pair, snapshot: Delta, r: Outcome)
    requires cfg.hasSeeder && s.exit.None? && p in s.books
    requires FlightOk(s) && OthersAttended(s, p) && forall q | q in s.books :: BudgetOk(s.books[q])
    requires r == ApplyDelta(cfg.model, s.books[p].book, snapshot) && r.out != ResyncNeeded
    ensures Inv(ApplySeed(cfg, s, p, snapshot))
  {
    var b := s.books[p];
    var rep := Replay(cfg.model, p, r.book, Buffered(b.phase), snapshot.updateId);
    var log := s.log + ApplyLog(p, snapshot, r) + rep.log;
    if rep.stuck == [] {
      var b' := b.(book := rep.book, phase := Passthrough, reseeds := 0, fetches := 0);
      SameFlight(s, s.(books := s.books[p := b'], log := log));
    } else if b.reseeds < MAX_RESEEDS {
      var s' := s.(books := s.books[p := b.(book := rep.book, phase := Buffering(Cap(rep.stuck)))], log := log);
      SameFlight(s, s');
      ReseedAttends(cfg, s', p);
    }
  }

  lemma FrameKeepsInv(cfg: Config, s: State, p: Pair, d: Delta)
    requires cfg.hasSeeder && s.exit.None? && Inv(s)
    ensures Inv(HandleFrame(cfg, s, p, d))
  {
    if p in s.books {
      var b := s.books[p];
      var r := ApplyDelta(cfg.model, b.book, d);
      var log := s.log + ApplyLog(p, d, r);
      if b.phase.Buffering? {
        if d.isSnapshot {
          SeedKeepsInv(cfg, s, p, d);
        } else {
          SameFlight(s, HandleFrame(cfg, s, p, d));
        }
      } else {
        SameFlight(s, s.(books := s.books[p := b.(book := r.book)], log := log));
        if b.reseeds < MAX_RESEEDS {
          var s' := s.(books := s.books[p := b.(book := r.book, phase := Buffering([d]))], log := log);
          SameFlight(s, s');
          ReseedAttends(cfg, s', p);
        }
      }
    }
  }

  lemma FailedSeedKeepsInv(cfg: Config, s: State, p: Pair)
    requires cfg.hasSeeder && s.exit.None? && Inv(s) && p in s.outstanding
    ensures Inv(SeedFailed(cfg, SeedLanded(s, p), p))
  {
    LandedKeepsFlight(s, p);
    if s.books[p].reseeds < MAX_RESEEDS {
      ReseedAttends(cfg, SeedLanded(s, p), p);
    }
  }

  lemma StepKeepsInv(cfg: Config, s: State, ev: Event)
    requires cfg.hasSeeder && Inv(s)
    ensures Inv(Step(cfg, s, ev))
  {
    if Possible(cfg, s, ev) {
      match ev {
        case Frame(p, d) => FrameKeepsInv(cfg, s, p, d);
        case SeedOk(p, snapshot) =>
          LandedKeepsFlight(s, p);
          SeedKeepsInv(cfg, SeedLanded(s, p), p, snapshot);
        case SeedErr(p) => FailedSeedKeepsInv(cfg, s, p);
        case StreamEnd => SameFlight(s, s.(eventsDone := true));
        case _ =>
      }
    }
  }

  lemma {:induction false} RunKeepsInv(cfg: Config, s: State, evs: seq<Event>)
    requires cfg.hasSeeder && Inv(s)
    ensures Inv(Run(cfg, s, evs))
  {
    if evs != [] {
      RunKeepsInv(cfg, s, evs[..|evs| - 1]);
      StepKeepsInv(cfg, Run(cfg, s, evs[..|evs| - 1]), evs[|evs| - 1]);
    }
  }

  /**
   Start-up. Whatever the venue, the fetches in flight are those of the seeding pairs; a pair that
   waits either has its one fetch on its way or a venue that will seed it in the stream; and without
   anybody to fetch, a REST-seeded pair does not wait.
   */
  lemma StartIsAttended(cfg: Config, pairs: set<Pair>)
    ensures var s := Start(cfg, pairs);
            && FlightOk(s) && s.books.Keys == pairs && s.log == [] && s.exit.None?
            && (forall p | p in pairs ::
                  && BudgetOk(s.books[p]) && s.books[p].book.last.None?
                  && (s.books[p].phase.Buffering? <==> s.outstanding[p] == 1 || AwaitsInBandSeed(cfg))
                  && (cfg.model.NeedsRest() && !cfg.hasSeeder ==> s.books[p].phase.Passthrough?))
            && (cfg.model.NeedsRest() ==> Inv(s))
  {
    var s := Start(cfg, pairs);
    assert SeedingPairs(s) == if cfg.model.NeedsRest() && cfg.hasSeeder then pairs else {};
  }

  /**
   No stranded book and bounded retries. In every state of every run that has not ended: each
   buffering pair has exactly one fetch in flight; `in_flight` is the number of seeding pairs; and
   at all times a pair has used at most 8 re-seeds, and 9 fetches since start-up or its last clean
   reconcile, of which at most 8 have come back while it still waits.
   */
  lemma NoStrandedBook(cfg: Config, pairs: set<Pair>, evs: seq<Event>)
    requires cfg.model.NeedsRest() && cfg.hasSeeder
    ensures var s := Run(cfg, Start(cfg, pairs), evs);
            && (s.exit.None? ==>
                  && s.inFlight == |SeedingPairs(s)|
                  && (forall p | p in s.books && s.books[p].phase.Buffering? ::
                        s.books[p].seeding && s.outstanding[p] == 1 && s.books[p].fetches - s.outstanding[p] <= 8))
            && (forall p | p in s.books :: s.books[p].reseeds <= 8 && s.books[p].fetches <= 9)
  {
    var s0 := Start(cfg, pairs);
    StartIsAttended(cfg, pairs);
    RunKeepsInv(cfg, s0, evs);
    var s := Run(cfg, s0, evs);
    if s.exit.None? {
      assert forall p | p in SeedingPairs(s) :: s.outstanding[p] == 1;
    }
  }

  /** Every fetch that comes back without a clean reconcile either starts another or ends the run. */
  lemma SpentBudgetReconnects(cfg: Config, s: State, ev: Event)
    requires cfg.hasSeeder && Inv(s) && Possible(cfg, s, ev) && (ev.SeedOk? || ev.SeedErr?)
    ensures var s' := Step(cfg, s, ev); var p := ev.pair;
            && p in s.books && p in s'.books
            && (s'.exit == Some(ResyncRequired)
                || (s'.books[p].seeding && s'.books[p].reseeds == s.books[p].reseeds + 1)
                || (s'.books[p].phase.Passthrough? && s'.books[p].reseeds == 0 && ev.SeedOk?))
    ensures ev.SeedErr? ==>
              var s', p := Step(cfg, s, ev), ev.pair;
              if s.books[p].reseeds == 8 then s'.exit == Some(ResyncRequired)
              else s'.exit.None? && s'.books[p].seeding && s'.books[p].reseeds == s.books[p].reseeds + 1
  {
    LandedKeepsFlight(s, ev.pair);
    var landed := SeedLanded(s, ev.pair);
    if ev.SeedOk? {
      SeedResolves(cfg, landed, ev.pair, ev.snapshot);
    }
  }

  /** What a seed that landed leaves of its pair. */
  lemma SeedResolves(cfg: Config, s: State, p: Pair, snapshot: Delta)
    requires cfg.hasSeeder && p in s.books && !s.books[p].seeding
    ensures var s' := ApplySeed(cfg, s, p, snapshot);
            && p in s'.books
            && (s'.exit == Some(ResyncRequired)
                || (s'.books[p].seeding && s'.books[p].reseeds == s.books[p].reseeds + 1)
                || (s'.books[p].phase.Passthrough? && s'.books[p].reseeds == 0))
  {}
}
