/**
 The reconstruction runtime of aetelier-connect/src/framework/runtime.rs: seed, buffer, replay,
 escalate.

 A run is a sequence of environment events. The network delivers any frames for any pair in any
 order, fetches succeed or fail whenever they like, and the stream, the shutdown switch and the
 output channel end when they like. `Step` is one turn of the `run` loop; an event the environment
 cannot produce in a state leaves that state alone, so every sequence of events is a run.
 */
module Runtime {
  import opened Wrappers
  import opened Levels
  import opened Reconstruction

  type Pair = string

  const MAX_BUFFERED_DELTAS: nat := 100_000
  const MAX_RESEEDS: nat := 8

  datatype Config = Config(model: ReconstructionModel, hasSeeder: bool)

  datatype Phase = Buffering(buf: seq<Delta>) | Passthrough

  /**
   `fetches` counts the seed fetches spawned for the pair since start-up or since its last clean
   reconcile; nothing reads it.
   */
  datatype PairBook = PairBook(book: Sourced, phase: Phase, seeding: bool, reseeds: nat, fetches: nat)

  datatype RuntimeOutcome = Finished | ResyncRequired

  /**
   What a run leaves behind: books sent downstream, tagged with the update id they were taken at,
   and the points where a snapshot reset a book.
   */
  datatype Log = Emit(pair: Pair, levels: Book, id: nat) | Reset(pair: Pair)

  /** `outstanding` holds the pairs whose spawned fetch has not reported yet. */
  datatype State = State(
    books: map<Pair, PairBook>,
    inFlight: int,
    outstanding: multiset<Pair>,
    eventsDone: bool,
    exit: Option<RuntimeOutcome>,
    log: seq<Log>)

  datatype Event =
    | Frame(pair: Pair, delta: Delta)
    | ConnectionGap
    | SeedOk(pair: Pair, snapshot: Delta)
    | SeedErr(pair: Pair)
    | SeedDeadline(expired: bool)
    | StreamEnd
    | Stop

  // ---------------------------------------------------------------------------
  // Start-up
  // ---------------------------------------------------------------------------

  function StartPair(cfg: Config): PairBook {
    var seeded := cfg.model.NeedsRest() && cfg.hasSeeder;
    PairBook(
      FRESH,
      if cfg.model.SeedsOutOfBand() && !(cfg.model.NeedsRest() && !cfg.hasSeeder) then Buffering([]) else Passthrough,
      seeded,
      0,
      if seeded then 1 else 0)
  }

  /** A pair before the run begins. */
  function Unseeded(cfg: Config): PairBook {
    PairBook(FRESH, if cfg.model.SeedsOutOfBand() then Buffering([]) else Passthrough, false, 0, 0)
  }

  function Start(cfg: Config, pairs: set<Pair>): State {
    var seeded := cfg.model.NeedsRest() && cfg.hasSeeder;
    State(
      map p | p in pairs :: StartPair(cfg),
      if seeded then |pairs| else 0,
      if seeded then multiset(pairs) else multiset{},
      false,
      None,
      [])
  }

  // ---------------------------------------------------------------------------
  // Steps
  // ---------------------------------------------------------------------------

  /** Start a fresh fetch unless one is already in flight or the budget is spent. */
  function RequestReseed(cfg: Config, s: State, p: Pair): State {
    if cfg.hasSeeder && p in s.books && !s.books[p].seeding && s.books[p].reseeds < MAX_RESEEDS then
      var b := s.books[p];
      s.(books := s.books[p := b.(seeding := true, reseeds := b.reseeds + 1, fetches := b.fetches + 1)],
         inFlight := s.inFlight + 1,
         outstanding := s.outstanding + multiset{p})
    else s
  }

  /** What one `apply` leaves in the log. */
  function ApplyLog(p: Pair, d: Delta, r: Outcome): seq<Log> {
    (if d.isSnapshot then [Reset(p)] else [])
    + (if r.out != ResyncNeeded && r.book.last.Some? then [Emit(p, r.book.levels, r.book.last.value)] else [])
  }

  function Cap(q: seq<Delta>): seq<Delta> {
    if |q| > MAX_BUFFERED_DELTAS then q[|q| - MAX_BUFFERED_DELTAS..] else q
  }

  /** Where a replay ended: `stuck` is the gapping delta and everything behind it, or empty. */
  datatype Replayed = Replayed(book: Sourced, log: seq<Log>, stuck: seq<Delta>)

  function Replay(m: ReconstructionModel, p: Pair, b: Sourced, buf: seq<Delta>, snapId: nat): Replayed
    decreases |buf|
  {
    if buf == [] then Replayed(b, [], [])
    else if buf[0].updateId <= snapId then Replay(m, p, b, buf[1..], snapId)
    else
      var r := ApplyDelta(m, b, buf[0]);
      if r.out == ResyncNeeded then Replayed(r.book, ApplyLog(p, buf[0], r), buf)
      else
        var rest := Replay(m, p, r.book, buf[1..], snapId);
        rest.(log := ApplyLog(p, buf[0], r) + rest.log)
  }

  function Escalate(s: State): State {
    s.(exit := Some(ResyncRequired))
  }

  function Buffered(phase: Phase): seq<Delta> {
    if phase.Buffering? then phase.buf else []
  }

  /** Seed one pair's book, then reconcile and replay its buffer. */
  function ApplySeed(cfg: Config, s: State, p: Pair, snapshot: Delta): State {
    if p !in s.books then s
    else
      var b := s.books[p];
      var mayReseed := cfg.hasSeeder && b.reseeds < MAX_RESEEDS;
      var r := ApplyDelta(cfg.model, b.book, snapshot);
      if r.out == ResyncNeeded then
        var s' := s.(books := s.books[p := b.(book := r.book)], log := s.log + ApplyLog(p, snapshot, r));
        if mayReseed then RequestReseed(cfg, s', p) else Escalate(s')
      else
        var rep := Replay(cfg.model, p, r.book, Buffered(b.phase), snapshot.updateId);
        var log := s.log + ApplyLog(p, snapshot, r) + rep.log;
        if rep.stuck == [] then
          s.(books := s.books[p := b.(book := rep.book, phase := Passthrough, reseeds := 0, fetches := 0)], log := log)
        else if mayReseed then
          var b' := b.(book := rep.book, phase := Buffering(Cap(rep.stuck)));
          RequestReseed(cfg, s.(books := s.books[p := b'], log := log), p)
        else
          Escalate(s.(books := s.books[p := b.(book := rep.book, phase := Passthrough)], log := log))
  }

  function Push(buf: seq<Delta>, d: Delta): seq<Delta> {
    (if |buf| >= MAX_BUFFERED_DELTAS then buf[1..] else buf) + [d]
  }

  function HandleFrame(cfg: Config, s: State, p: Pair, d: Delta): State {
    if p !in s.books then s
    else
      var b := s.books[p];
      if b.phase.Buffering? then
        if d.isSnapshot then ApplySeed(cfg, s, p, d)
        else s.(books := s.books[p := b.(phase := Buffering(Push(b.phase.buf, d)))])
      else
        var r := ApplyDelta(cfg.model, b.book, d);
        var s' := s.(books := s.books[p := b.(book := r.book)], log := s.log + ApplyLog(p, d, r));
        if r.out != ResyncNeeded then s'
        else if cfg.hasSeeder && b.reseeds < MAX_RESEEDS then
          RequestReseed(cfg, s'.(books := s.books[p := b.(book := r.book, phase := Buffering([d]))]), p)
        else Escalate(s')
  }

  function HandleConnectionGap(s: State): State {
    Escalate(s.(books := map p | p in s.books ::
      s.books[p].(book := ForceGapped(s.books[p].book), phase := Passthrough)))
  }

  /** A fetch reported: it is no longer in flight. */
  function SeedLanded(s: State, p: Pair): State {
    var s' := s.(inFlight := s.inFlight - 1, outstanding := s.outstanding - multiset{p});
    if p in s.books then s'.(books := s.books[p := s.books[p].(seeding := false)]) else s'
  }

  function SeedFailed(cfg: Config, s: State, p: Pair): State {
    if p in s.books && s.books[p].reseeds < MAX_RESEEDS then RequestReseed(cfg, s, p) else Escalate(s)
  }

  predicate AwaitsInBandSeed(cfg: Config) {
    cfg.model.SeedsOutOfBand() && !cfg.model.NeedsRest()
  }

  /** What the environment can deliver in this state. */
  predicate Possible(cfg: Config, s: State, ev: Event) {
    && s.exit.None?
    && match ev
       case Frame(_, _) => !s.eventsDone
       case ConnectionGap => !s.eventsDone
       case SeedOk(p, snapshot) => p in s.outstanding && snapshot.isSnapshot
       case SeedErr(p) => p in s.outstanding
       case SeedDeadline(_) => AwaitsInBandSeed(cfg)
       case StreamEnd => !s.eventsDone
       case Stop => true
  }

  function Turn(cfg: Config, s: State, ev: Event): State {
    match ev
    case Frame(p, d) => HandleFrame(cfg, s, p, d)
    case ConnectionGap => HandleConnectionGap(s)
    case SeedOk(p, snapshot) => ApplySeed(cfg, SeedLanded(s, p), p, snapshot)
    case SeedErr(p) => SeedFailed(cfg, SeedLanded(s, p), p)
    case SeedDeadline(expired) => if expired then Escalate(s) else s
    case StreamEnd => s.(eventsDone := true)
    case Stop => s.(exit := Some(Finished))
  }

  /** The test at the head of the loop: nothing left to read and nothing in flight. */
  function LoopTest(s: State): State {
    if s.exit.None? && s.eventsDone && s.inFlight == 0 then s.(exit := Some(Finished)) else s
  }

  function Step(cfg: Config, s: State, ev: Event): State {
    if Possible(cfg, s, ev) then LoopTest(Turn(cfg, s, ev)) else s
  }

  function Run(cfg: Config, s: State, evs: seq<Event>): State {
    if evs == [] then s else Step(cfg, Run(cfg, s, evs[..|evs| - 1]), evs[|evs| - 1])
  }

  lemma OneMoreFetch(done: set<Pair>, p: Pair)
    requires p !in done
    ensures |done + {p}| == |done| + 1 && multiset(done + {p}) == multiset(done) + multiset{p}
  {}

  /** Every pair has `after`, except the rest, which still have `before`. */
  function Changed(pairs: set<Pair>, rest: set<Pair>, before: PairBook, after: PairBook): map<Pair, PairBook> {
    map p | p in pairs :: if p in rest then before else after
  }

  lemma ChangeOne(pairs: set<Pair>, rest: set<Pair>, p: Pair, before: PairBook, after: PairBook)
    requires p in rest && rest <= pairs
    ensures Changed(pairs, rest, before, after)[p := after] == Changed(pairs, rest - {p}, before, after)
  {}

  // ---------------------------------------------------------------------------
  // The object
  // ---------------------------------------------------------------------------

  class SourceRuntime {
    const cfg: Config
    var books: map<Pair, PairBook>
    var inFlight: int
    var outstanding: multiset<Pair>
    var eventsDone: bool
    var exit: Option<RuntimeOutcome>
    var log: seq<Log>

    function View(): State
      reads this
    {
      State(books, inFlight, outstanding, eventsDone, exit, log)
    }

    constructor (cfg: Config, pairs: set<Pair>)
      ensures this.cfg == cfg && View() == Start(cfg, pairs)
    {
      this.cfg := cfg;
      books, inFlight, outstanding := map[], 0, multiset{};
      eventsDone, exit, log := false, None, [];
      new;
      OpenBooks(pairs);
      KickOff(pairs);
    }

    /** `new`: a fresh book for every pair, waiting when its seed comes from outside the stream. */
    method OpenBooks(pairs: set<Pair>)
      modifies `books
      ensures books == map p | p in pairs :: Unseeded(cfg)
    {
      books := map[];
      var rest := pairs;
      while rest != {}
        invariant rest <= pairs && books == map p | p in pairs && p !in rest :: Unseeded(cfg)
        decreases rest
      {
        var p :| p in rest;
        rest := rest - {p};
        books := books[p := Unseeded(cfg)];
      }
    }

    /** The head of `run`: the first fetch of every pair, or no waiting when nobody can fetch. */
    method KickOff(pairs: set<Pair>)
      requires books == (map p | p in pairs :: Unseeded(cfg)) && inFlight == 0 && outstanding == multiset{}
      modifies `books, `inFlight, `outstanding
      ensures books == Start(cfg, pairs).books
      ensures inFlight == Start(cfg, pairs).inFlight && outstanding == Start(cfg, pairs).outstanding
    {
      if cfg.model.NeedsRest() {
        if cfg.hasSeeder {
          FetchAll(pairs);
        } else {
          ReleaseAll(pairs);
        }
      }
    }

    method FetchAll(pairs: set<Pair>)
      requires books == Changed(pairs, pairs, Unseeded(cfg), Unseeded(cfg))
                   && inFlight == 0 && outstanding == multiset{}
      modifies `books, `inFlight, `outstanding
      ensures books == Changed(pairs, {}, Unseeded(cfg), Unseeded(cfg).(seeding := true, fetches := 1))
      ensures inFlight == |pairs| && outstanding == multiset(pairs)
    {
      var fetching := Unseeded(cfg).(seeding := true, fetches := 1);
      var rest := pairs;
      assert pairs - rest == {} && pairs - {} == pairs;
      while rest != {}
        invariant rest <= pairs && books == Changed(pairs, rest, Unseeded(cfg), fetching)
        invariant inFlight == |pairs - rest| && outstanding == multiset(pairs - rest)
        decreases rest
      {
        var p :| p in rest;
        OneMoreFetch(pairs - rest, p);
        assert pairs - (rest - {p}) == (pairs - rest) + {p};
        ChangeOne(pairs, rest, p, Unseeded(cfg), fetching);
        books := books[p := books[p].(seeding := true, fetches := 1)];
        inFlight, outstanding := inFlight + 1, outstanding + multiset{p};
        rest := rest - {p};
      }
    }

    method ReleaseAll(pairs: set<Pair>)
      requires books == Changed(pairs, pairs, Unseeded(cfg), Unseeded(cfg))
      modifies `books
      ensures books == Changed(pairs, {}, Unseeded(cfg), Unseeded(cfg).(phase := Passthrough))
    {
      var released := Unseeded(cfg).(phase := Passthrough);
      var rest := pairs;
      while rest != {}
        invariant rest <= pairs && books == Changed(pairs, rest, Unseeded(cfg), released)
        decreases rest
      {
        var p :| p in rest;
        ChangeOne(pairs, rest, p, Unseeded(cfg), released);
        books := books[p := books[p].(phase := Passthrough)];
        rest := rest - {p};
      }
    }

    /** The `run` loop over the events the environment delivers. */
    method Drive(evs: seq<Event>)
      modifies this
      ensures View() == Run(cfg, old(View()), evs)
    {
      for i := 0 to |evs|
        invariant View() == Run(cfg, old(View()), evs[..i])
      {
        assert evs[..i + 1][..i] == evs[..i];
        OneTurn(evs[i]);
      }
      assert evs[..|evs|] == evs;
    }

    method OneTurn(ev: Event)
      modifies this
      ensures View() == Step(cfg, old(View()), ev)
    {
      if !Possible(cfg, View(), ev) {
        return;
      }
      match ev {
        case Frame(p, d) => OnFrame(p, d);
        case ConnectionGap => OnConnectionGap();
        case SeedOk(p, snapshot) =>
          OnSeedLanded(p);
          Seed(p, snapshot);
        case SeedErr(p) =>
          OnSeedLanded(p);
          if p in books && books[p].reseeds < MAX_RESEEDS {
            Reseed(p);
          } else {
            exit := Some(ResyncRequired);
          }
        case SeedDeadline(expired) =>
          if expired { exit := Some(ResyncRequired); }
        case StreamEnd => eventsDone := true;
        case Stop => exit := Some(Finished);
      }
      if exit.None? && eventsDone && inFlight == 0 {
        exit := Some(Finished);
      }
    }

    method OnSeedLanded(p: Pair)
      modifies this`inFlight, this`outstanding, this`books
      ensures View() == SeedLanded(old(View()), p)
    {
      ghost var s := View();
      inFlight, outstanding := inFlight - 1, outstanding - multiset{p};
      if p in books {
        books := books[p := books[p].(seeding := false)];
        assert books == s.books[p := s.books[p].(seeding := false)];
      }
    }

    method Reseed(p: Pair)
      modifies this`inFlight, this`outstanding, this`books
      ensures View() == RequestReseed(cfg, old(View()), p)
    {
      if cfg.hasSeeder && p in books {
        var b := books[p];
        if !b.seeding && b.reseeds < MAX_RESEEDS {
          books := books[p := b.(seeding := true, reseeds := b.reseeds + 1, fetches := b.fetches + 1)];
          inFlight, outstanding := inFlight + 1, outstanding + multiset{p};
        }
      }
    }

    method OnFrame(p: Pair, d: Delta)
      modifies this
      ensures View() == HandleFrame(cfg, old(View()), p, d)
    {
      if p !in books {
        return;
      }
      var b := books[p];
      if b.phase.Buffering? {
        if d.isSnapshot {
          Seed(p, d);
        } else {
          var buf := b.phase.buf;
          if |buf| >= MAX_BUFFERED_DELTAS {
            buf := buf[1..];
          }
          books := books[p := b.(phase := Buffering(buf + [d]))];
        }
        return;
      }
      var r := ApplyDelta(cfg.model, b.book, d);
      log := log + ApplyLog(p, d, r);
      if r.out != ResyncNeeded {
        books := books[p := b.(book := r.book)];
      } else if cfg.hasSeeder && b.reseeds < MAX_RESEEDS {
        books := books[p := b.(book := r.book, phase := Buffering([d]))];
        Reseed(p);
      } else {
        books := books[p := b.(book := r.book)];
        exit := Some(ResyncRequired);
      }
    }

    method OnConnectionGap()
      modifies this
      ensures View() == HandleConnectionGap(old(View()))
    {
      var rest := books.Keys;
      while rest != {}
        invariant rest <= books.Keys == old(books).Keys
        invariant forall p | p in books :: books[p] ==
                    if p in rest then old(books)[p]
                    else old(books)[p].(book := ForceGapped(old(books)[p].book), phase := Passthrough)
        invariant unchanged(`inFlight, `outstanding, `eventsDone, `exit, `log)
        decreases rest
      {
        var p :| p in rest;
        rest := rest - {p};
        books := books[p := books[p].(book := ForceGapped(books[p].book), phase := Passthrough)];
      }
      exit := Some(ResyncRequired);
    }

    method Seed(p: Pair, snapshot: Delta)
      modifies this
      ensures View() == ApplySeed(cfg, old(View()), p, snapshot)
    {
      if p !in books {
        return;
      }
      var b := books[p];
      var mayReseed := cfg.hasSeeder && b.reseeds < MAX_RESEEDS;
      var r := ApplyDelta(cfg.model, b.book, snapshot);
      log := log + ApplyLog(p, snapshot, r);
      if r.out == ResyncNeeded {
        books := books[p := b.(book := r.book)];
        if mayReseed {
          Reseed(p);
        } else {
          exit := Some(ResyncRequired);
        }
        return;
      }
      var rep := ReplayBuffer(p, r.book, Buffered(b.phase), snapshot.updateId);
      log := log + rep.log;
      if rep.stuck == [] {
        books := books[p := b.(book := rep.book, phase := Passthrough, reseeds := 0, fetches := 0)];
      } else if mayReseed {
        var q := Trim(rep.stuck);
        books := books[p := b.(book := rep.book, phase := Buffering(q))];
        Reseed(p);
      } else {
        books := books[p := b.(book := rep.book, phase := Passthrough)];
        exit := Some(ResyncRequired);
      }
    }

    /** Drop the oldest until the buffer fits. */
    method Trim(buf: seq<Delta>) returns (q: seq<Delta>)
      ensures q == Cap(buf)
    {
      q := buf;
      while |q| > MAX_BUFFERED_DELTAS
        invariant |q| <= |buf| && q == buf[|buf| - |q|..]
        invariant |q| == |buf| || |q| >= MAX_BUFFERED_DELTAS
      {
        q := q[1..];
      }
    }

    /** The replay loop: skip what the snapshot covers, apply the rest, stop at the first gap. */
    method ReplayBuffer(p: Pair, start: Sourced, buf: seq<Delta>, snapId: nat) returns (rep: Replayed)
      ensures rep == Replay(cfg.model, p, start, buf, snapId)
    {
      var book, out, i := start, [], 0;
      while i < |buf|
        invariant 0 <= i <= |buf|
        invariant var rest := Replay(cfg.model, p, book, buf[i..], snapId);
                  Replay(cfg.model, p, start, buf, snapId) == rest.(log := out + rest.log)
      {
        var d := buf[i];
        assert buf[i..][0] == d && buf[i..][1..] == buf[i + 1..];
        if d.updateId > snapId {
          var r := ApplyDelta(cfg.model, book, d);
          if r.out == ResyncNeeded {
            return Replayed(r.book, out + ApplyLog(p, d, r), buf[i..]);
          }
          book, out := r.book, out + ApplyLog(p, d, r);
        }
        i := i + 1;
      }
      rep := Replayed(book, out, []);
    }
  }
}
