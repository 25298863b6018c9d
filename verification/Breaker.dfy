/**
 Reconnection with jittered exponential backoff and a circuit breaker
 (aetelier-connect/src/clients/reconnect.rs). Times and durations are microseconds; the clock reading
 and the random draw of a call are its parameters.
 */
module Breaker {
  import opened Wrappers

  datatype Config = Config(initialDelay: nat, maxDelay: nat, maxAttempts: Option<nat>, jitter: real)

  datatype Reason =
    | CleanClose
    | GoingAway
    | ProtocolRejection(code: nat)
    | TransportError
    | StaleConnection
    | ReceiverDropped
    | HeartbeatFailed

  datatype Circuit = Closed | Open | HalfOpen

  /** `Panic` is the empty range handed to the random generator. */
  datatype Action =
    | RetryAfter(delay: nat)
    | RetryImmediately
    | GiveUp
    | CircuitOpen(until: nat)
    | Panic

  datatype Policy = Policy(
    delay: nat, failures: nat, circuit: Circuit, until: Option<nat>, cooldown: nat, dataReceived: bool)

  /** What `build` asserts, and what the jitter setter clamps. */
  ghost predicate Buildable(cfg: Config) {
    cfg.initialDelay <= cfg.maxDelay && cfg.jitter >= 0.0
  }

  ghost predicate Draw(u: real) {
    0.0 <= u < 1.0
  }

  function Retryable(r: Reason): bool {
    !r.ProtocolRejection? && !r.ReceiverDropped?
  }

  function DelayFactor(r: Reason): nat {
    match r
    case TransportError => 2
    case GoingAway | StaleConnection | HeartbeatFailed => 1
    case CleanClose | ProtocolRejection(_) | ReceiverDropped => 0
  }

  function Min(a: nat, b: nat): nat {
    if a <= b then a else b
  }

  // ---------------------------------------------------------------------------
  // The decision
  // ---------------------------------------------------------------------------

  function Fresh(cfg: Config): Policy {
    Policy(cfg.initialDelay, 0, Closed, None, cfg.maxDelay * 4, false)
  }

  function Trip(s: Policy, cooldown: nat, now: nat): (Policy, Action) {
    (s.(cooldown := cooldown, until := Some(now + cooldown), circuit := Open), CircuitOpen(now + cooldown))
  }

  /** Whole milliseconds of the delay, times the reason's factor. */
  function BaseMillis(delay: nat, r: Reason): nat {
    delay / 1000 * DelayFactor(r)
  }

  /** The base stretched by the draw; `as u64` on a nonnegative value drops the fraction. */
  function Jittered(base: nat, jitter: real, u: real): nat
    requires jitter >= 0.0 && u >= 0.0
  {
    (base as real + base as real * jitter * u).Floor
  }

  function Backoff(cfg: Config, s: Policy, r: Reason, u: real): (Policy, Action)
    requires cfg.jitter >= 0.0 && u >= 0.0
  {
    var base := BaseMillis(s.delay, r);
    if cfg.jitter > 0.0 && base == 0 then (s, Panic)
    else
      (s.(delay := Min(s.delay * 2, cfg.maxDelay)), RetryAfter(Jittered(base, cfg.jitter, u) * 1000))
  }

  function Next(cfg: Config, s: Policy, r: Reason, now: nat, u: real): (Policy, Action)
    requires cfg.jitter >= 0.0 && u >= 0.0
  {
    var postDataClose := s.dataReceived && r.ProtocolRejection? && r.code != 0;
    if !Retryable(r) && !postDataClose then (s, GiveUp)
    else
      match s.circuit
      case Open =>
        if s.until.Some? && now < s.until.value then (s, CircuitOpen(s.until.value))
        else (s.(circuit := HalfOpen), RetryAfter(cfg.initialDelay))
      case HalfOpen => Trip(s, Min(s.cooldown * 2, cfg.maxDelay * 8), now)
      case Closed =>
        if DelayFactor(r) == 0 then (s, RetryImmediately)
        else
          var s1 := s.(failures := s.failures + 1);
          if cfg.maxAttempts.Some? && s1.failures >= cfg.maxAttempts.value then Trip(s1, cfg.maxDelay * 4, now)
          else Backoff(cfg, s1, r, u)
  }

  function Connected(cfg: Config, s: Policy): Policy {
    Policy(cfg.initialDelay, 0, Closed, None, cfg.maxDelay * 4, s.dataReceived)
  }

  function Received(cfg: Config, s: Policy): Policy {
    s.(delay := cfg.initialDelay, dataReceived := true)
  }

  // ---------------------------------------------------------------------------
  // The object
  // ---------------------------------------------------------------------------

  class ReconnectPolicy {
    const cfg: Config
    var currentDelay: nat
    var consecutiveFailures: nat
    var circuitState: Circuit
    var cooldownUntil: Option<nat>
    var cooldownDuration: nat
    var dataEverReceived: bool

    function View(): Policy
      reads this
    {
      Policy(currentDelay, consecutiveFailures, circuitState, cooldownUntil, cooldownDuration, dataEverReceived)
    }

    constructor (cfg: Config)
      requires Buildable(cfg)
      ensures this.cfg == cfg && View() == Fresh(cfg)
    {
      this.cfg := cfg;
      currentDelay, consecutiveFailures, circuitState := cfg.initialDelay, 0, Closed;
      cooldownUntil, cooldownDuration, dataEverReceived := None, cfg.maxDelay * 4, false;
    }

    method NextAction(reason: Reason, now: nat, u: real) returns (action: Action)
      requires cfg.jitter >= 0.0 && Draw(u)
      modifies this
      ensures (View(), action) == Next(cfg, old(View()), reason, now, u)
    {
      var postDataClose := dataEverReceived && reason.ProtocolRejection? && reason.code != 0;
      if !Retryable(reason) && !postDataClose {
        return GiveUp;
      }
      match circuitState {
        case Open =>
          if cooldownUntil.Some? && now < cooldownUntil.value {
            return CircuitOpen(cooldownUntil.value);
          }
          circuitState := HalfOpen;
          return RetryAfter(cfg.initialDelay);
        case HalfOpen =>
          cooldownDuration := Min(cooldownDuration * 2, cfg.maxDelay * 8);
          cooldownUntil := Some(now + cooldownDuration);
          circuitState := Open;
          return CircuitOpen(now + cooldownDuration);
        case Closed =>
      }
      if DelayFactor(reason) == 0 {
        return RetryImmediately;
      }
      consecutiveFailures := consecutiveFailures + 1;
      if cfg.maxAttempts.Some? && consecutiveFailures >= cfg.maxAttempts.value {
        cooldownDuration := cfg.maxDelay * 4;
        cooldownUntil := Some(now + cooldownDuration);
        circuitState := Open;
        return CircuitOpen(now + cooldownDuration);
      }
      var base := BaseMillis(currentDelay, reason);
      if cfg.jitter > 0.0 && base == 0 {
        return Panic;
      }
      action := RetryAfter(Jittered(base, cfg.jitter, u) * 1000);
      currentDelay := Min(currentDelay * 2, cfg.maxDelay);
    }

    method OnConnected()
      modifies this
      ensures View() == Connected(cfg, old(View()))
    {
      consecutiveFailures, currentDelay := 0, cfg.initialDelay;
      cooldownUntil, cooldownDuration := None, cfg.maxDelay * 4;
      if circuitState != Closed {
        circuitState := Closed;
      }
    }

    method OnMessageReceived()
      modifies `currentDelay, `dataEverReceived
      ensures View() == Received(cfg, old(View()))
    {
      currentDelay, dataEverReceived := cfg.initialDelay, true;
    }
  }

  // ---------------------------------------------------------------------------
  // Runs
  // ---------------------------------------------------------------------------

  datatype Call = Failure(reason: Reason, now: nat, u: real) | Connect | Message

  datatype Note =
    | Tripped(at: nat, cooldown: nat)
    | Probed(at: nat)
    | BackedOff(delay: nat)
    | Immediate
    | Panicked
    | Quiet

  /**
   `streak` counts the backoffs since the delay was last reset; `log` has one note per call, `answers` what
   each call was answered, None for the calls that answer nothing.
   */
  datatype Trace = Trace(policy: Policy, clock: nat, streak: nat, log: seq<Note>, answers: seq<Option<Action>>)

  /** Read off the state before, the answer and the state after. */
  ghost function NoteOf(s: Policy, s': Policy, now: nat, a: Action): Note {
    if s.circuit != Open && s'.circuit == Open then Tripped(now, s'.cooldown)
    else if s.circuit == Open && s'.circuit == HalfOpen then Probed(now)
    else if a.Panic? then Panicked
    else if a.RetryAfter? then BackedOff(a.delay)
    else if a.RetryImmediately? then Immediate
    else Quiet
  }

  ghost function Turn(cfg: Config, t: Trace, c: Call): Trace
    requires cfg.jitter >= 0.0 && (c.Failure? ==> c.u >= 0.0)
  {
    match c
    case Failure(r, now, u) =>
      var (s', a) := Next(cfg, t.policy, r, now, u);
      var note := NoteOf(t.policy, s', now, a);
      var streak := if note.BackedOff? then t.streak + 1 else t.streak;
      Trace(s', now, streak, t.log + [note], t.answers + [Some(a)])
    case Connect => Trace(Connected(cfg, t.policy), t.clock, 0, t.log + [Quiet], t.answers + [None])
    case Message => Trace(Received(cfg, t.policy), t.clock, 0, t.log + [Quiet], t.answers + [None])
  }

  ghost predicate Draws(calls: seq<Call>) {
    forall c | c in calls :: c.Failure? ==> Draw(c.u)
  }

  ghost function Run(cfg: Config, calls: seq<Call>): Trace
    requires cfg.jitter >= 0.0 && Draws(calls)
  {
    if calls == [] then Trace(Fresh(cfg), 0, 0, [], [])
    else Turn(cfg, Run(cfg, calls[..|calls| - 1]), calls[|calls| - 1])
  }

  // ---------------------------------------------------------------------------
  // The state
  // ---------------------------------------------------------------------------

  ghost function Pow2(n: nat): nat {
    if n == 0 then 1 else 2 * Pow2(n - 1)
  }

  /** The newest trip of the log. */
  ghost function LastTrip(log: seq<Note>): Option<Note> {
    if log == [] then None
    else if log[|log| - 1].Tripped? then Some(log[|log| - 1])
    else LastTrip(log[..|log| - 1])
  }

  ghost predicate DelayOk(cfg: Config, t: Trace) {
    t.policy.delay == Min(cfg.initialDelay * Pow2(t.streak), cfg.maxDelay) && t.policy.delay >= cfg.initialDelay
  }

  ghost predicate CircuitOk(cfg: Config, s: Policy) {
    && (s.cooldown == 4 * cfg.maxDelay || s.cooldown == 8 * cfg.maxDelay)
    && (s.circuit.Open? ==> s.until.Some?)
    && (cfg.maxAttempts.None? ==> s.circuit.Closed?)
    && (cfg.maxAttempts.Some? && cfg.maxAttempts.value >= 1 ==>
          (s.circuit.Closed? <==> s.failures < cfg.maxAttempts.value) && s.failures <= cfg.maxAttempts.value)
  }

  /** An open circuit holds the deadline of its newest trip. */
  ghost predicate DeadlineOk(t: Trace) {
    var trip := LastTrip(t.log);
    t.policy.circuit.Open? ==>
      trip.Some? && trip.value.Tripped? && t.policy.cooldown == trip.value.cooldown
      && t.policy.until == Some(trip.value.at + trip.value.cooldown)
  }

  lemma LastTripSnoc(log: seq<Note>, n: Note)
    ensures LastTrip(log + [n]) == if n.Tripped? then Some(n) else LastTrip(log)
  {
    assert (log + [n])[..|log|] == log;
  }

  lemma PowersArePositive(n: nat)
    ensures Pow2(n) >= 1
  {}

  lemma DoublingIsCapped(initial: nat, streak: nat, max: nat)
    requires initial <= max
    ensures Min(Min(initial * Pow2(streak), max) * 2, max) == Min(initial * Pow2(streak + 1), max)
    ensures initial <= Min(initial * Pow2(streak + 1), max)
  {
    var x := Pow2(streak);
    PowersArePositive(streak);
    assert initial * (2 * x) == 2 * (initial * x);
    Doubles(initial, 2 * x);
  }

  lemma Doubles(a: nat, k: nat)
    requires k >= 1
    ensures a * k >= a
  {}

  lemma TurnKeepsDelay(cfg: Config, t: Trace, c: Call)
    requires Buildable(cfg) && DelayOk(cfg, t) && (c.Failure? ==> Draw(c.u))
    ensures DelayOk(cfg, Turn(cfg, t, c))
  {
    DoublingIsCapped(cfg.initialDelay, t.streak, cfg.maxDelay);
    assert cfg.initialDelay * Pow2(0) == cfg.initialDelay;
  }

  lemma TurnKeepsCircuit(cfg: Config, t: Trace, c: Call)
    requires Buildable(cfg) && CircuitOk(cfg, t.policy) && DeadlineOk(t) && (c.Failure? ==> Draw(c.u))
    ensures CircuitOk(cfg, Turn(cfg, t, c).policy) && DeadlineOk(Turn(cfg, t, c))
  {
    var t' := Turn(cfg, t, c);
    LastTripSnoc(t.log, t'.log[|t.log|]);
  }

  ghost predicate Sound(cfg: Config, t: Trace) {
    DelayOk(cfg, t) && CircuitOk(cfg, t.policy) && DeadlineOk(t)
  }

  lemma {:induction false} RunIsSound(cfg: Config, calls: seq<Call>)
    requires Buildable(cfg) && Draws(calls)
    ensures Sound(cfg, Run(cfg, calls)) && |Run(cfg, calls).log| == |calls|
  {
    if calls == [] {
      assert cfg.initialDelay * Pow2(0) == cfg.initialDelay;
    } else {
      RunIsSound(cfg, calls[..|calls| - 1]);
      TurnKeepsDelay(cfg, Run(cfg, calls[..|calls| - 1]), calls[|calls| - 1]);
      TurnKeepsCircuit(cfg, Run(cfg, calls[..|calls| - 1]), calls[|calls| - 1]);
    }
  }

  // ---------------------------------------------------------------------------
  // The answers
  // ---------------------------------------------------------------------------

  lemma ProductIsNonnegative(a: real, b: real)
    requires a >= 0.0 && b >= 0.0
    ensures a * b >= 0.0
  {}

  lemma ProductGrows(a: real, b: real, k: real)
    requires a <= b && k >= 0.0
    ensures a * k <= b * k
  {
    ProductIsNonnegative(b - a, k);
  }

  /** The drawn delay lies between the base and the base plus its full jitter. */
  lemma JitterIsBounded(base: nat, jitter: real, u: real)
    requires jitter >= 0.0 && Draw(u)
    ensures base <= Jittered(base, jitter, u)
    ensures Jittered(base, jitter, u) as real <= base as real * (1.0 + jitter)
  {
    var spread := base as real * jitter;
    ProductIsNonnegative(base as real, jitter);
    ProductIsNonnegative(spread, u);
    ProductIsNonnegative(spread, 1.0 - u);
    assert spread * (1.0 - u) == spread - spread * u;
    assert base as real * (1.0 + jitter) == base as real + spread;
  }

  /** The note a call leaves: the bound on a backoff, the wait before a probe, when a draw panics. */
  ghost predicate NoteOk(cfg: Config, before: seq<Note>, n: Note) {
    match n
    case BackedOff(d) => d as real <= 2.0 * cfg.maxDelay as real * (1.0 + cfg.jitter)
    case Probed(at) => LastTrip(before).Some? && LastTrip(before).value.Tripped?
                       && at >= LastTrip(before).value.at + LastTrip(before).value.cooldown
    case Tripped(_, cooldown) => cooldown == 4 * cfg.maxDelay || cooldown == 8 * cfg.maxDelay
    case Panicked => cfg.jitter > 0.0 && cfg.initialDelay < 1000
    case Immediate | Quiet => true
  }

  lemma BaseIsBounded(delay: nat, r: Reason)
    ensures BaseMillis(delay, r) * 1000 <= 2 * delay
  {
    var m := delay / 1000;
    assert m * 0 == 0 && m * 1 == m && m * 2 == m + m;
  }

  lemma DelayIsBounded(cfg: Config, delay: nat, r: Reason, u: real)
    requires Buildable(cfg) && delay <= cfg.maxDelay && Draw(u)
    ensures (Jittered(BaseMillis(delay, r), cfg.jitter, u) * 1000) as real
            <= 2.0 * cfg.maxDelay as real * (1.0 + cfg.jitter)
  {
    var base := BaseMillis(delay, r);
    var k := 1.0 + cfg.jitter;
    BaseIsBounded(delay, r);
    JitterIsBounded(base, cfg.jitter, u);
    ScaledBound(base as real, k, 2.0 * cfg.maxDelay as real, Jittered(base, cfg.jitter, u) as real);
  }

  lemma ScaledBound(base: real, k: real, cap: real, x: real)
    requires 1000.0 * base <= cap && k >= 0.0 && x <= base * k
    ensures 1000.0 * x <= cap * k
  {
    ProductGrows(1000.0 * base, cap, k);
  }

  lemma TurnNoteIsOk(cfg: Config, t: Trace, c: Call)
    requires Buildable(cfg) && Sound(cfg, t) && (c.Failure? ==> Draw(c.u))
    ensures var t' := Turn(cfg, t, c); |t'.log| == |t.log| + 1 && NoteOk(cfg, t.log, t'.log[|t.log|])
  {
    if c.Failure? {
      DelayIsBounded(cfg, t.policy.delay, c.reason, c.u);
    }
  }

  /**
   Over every run: each backoff is at most twice the maximum plus its jitter, each probe comes after
   the whole cooldown of the trip before it, every cooldown is four or eight times the maximum, and the
   random draw panics only on an initial delay below a millisecond.
   */
  lemma {:induction false} RunAnswersAreBounded(cfg: Config, calls: seq<Call>)
    requires Buildable(cfg) && Draws(calls)
    ensures var log := Run(cfg, calls).log;
            forall i | 0 <= i < |log| :: NoteOk(cfg, log[..i], log[i])
  {
    if calls != [] {
      var init, c := calls[..|calls| - 1], calls[|calls| - 1];
      RunAnswersAreBounded(cfg, init);
      RunIsSound(cfg, init);
      var t := Run(cfg, init);
      TurnNoteIsOk(cfg, t, c);
      var log' := Turn(cfg, t, c).log;
      assert log' == t.log + [log'[|t.log|]];
      forall i | 0 <= i < |log'|
        ensures NoteOk(cfg, log'[..i], log'[i])
      {
        assert log'[..i] == t.log[..i];
        assert t.log[..|t.log|] == t.log;
      }
    }
  }

  /** And it does panic there: on the first failure that is backed off. */
  lemma FirstBackoffPanicsIff(cfg: Config, r: Reason, now: nat, u: real)
    requires Buildable(cfg) && Draw(u) && DelayFactor(r) > 0
    requires cfg.maxAttempts.Some? ==> cfg.maxAttempts.value > 1
    ensures Next(cfg, Fresh(cfg), r, now, u).1.Panic? <==> cfg.jitter > 0.0 && cfg.initialDelay < 1000
  {
    var m := cfg.initialDelay / 1000;
    assert m * 1 == m && m * 2 == m + m;
  }

  // ---------------------------------------------------------------------------
  // What counts as a failure
  // ---------------------------------------------------------------------------

  /** Transport errors weigh two, the other retryable losses one; a clean close or a rejection weighs nothing. */
  ghost function Weight(r: Reason): nat {
    if r == TransportError then 2
    else if r == GoingAway || r == StaleConnection || r == HeartbeatFailed then 1
    else 0
  }

  /** The failures with a nonzero weight since the last connection. */
  ghost function Counted(calls: seq<Call>): nat {
    if calls == [] then 0
    else
      var c, before := calls[|calls| - 1], Counted(calls[..|calls| - 1]);
      match c
      case Connect => 0
      case Message => before
      case Failure(r, _, _) => if Weight(r) > 0 then before + 1 else before
  }

  /** How many counted failures it takes to open the circuit. */
  ghost function Limit(cfg: Config): Option<nat> {
    if cfg.maxAttempts.None? then None else Some(if cfg.maxAttempts.value == 0 then 1 else cfg.maxAttempts.value)
  }

  ghost predicate CountsOk(cfg: Config, s: Policy, counted: nat, data: bool) {
    && (s.circuit.Closed? <==> Limit(cfg).None? || counted < Limit(cfg).value)
    && (s.circuit.Closed? ==> s.failures == counted)
    && s.dataReceived == data
  }

  lemma CallKeepsCounts(cfg: Config, t: Trace, c: Call, counted: nat, data: bool)
    requires Buildable(cfg) && CountsOk(cfg, t.policy, counted, data) && (c.Failure? ==> Draw(c.u))
    ensures CountsOk(cfg, Turn(cfg, t, c).policy,
                     match c case Connect => 0 case Message => counted
                             case Failure(r, _, _) => if Weight(r) > 0 then counted + 1 else counted,
                     data || c.Message?)
  {}

  /**
   The circuit is closed exactly as long as the failures counted since the last connection are fewer
   than the limit, and while it is closed the policy's own counter is that count.
   */
  lemma {:induction false} TripsExactlyAtTheLimit(cfg: Config, calls: seq<Call>)
    requires Buildable(cfg) && Draws(calls)
    ensures CountsOk(cfg, Run(cfg, calls).policy, Counted(calls), Message in calls)
  {
    if calls != [] {
      var init, c := calls[..|calls| - 1], calls[|calls| - 1];
      TripsExactlyAtTheLimit(cfg, init);
      CallKeepsCounts(cfg, Run(cfg, init), c, Counted(init), Message in init);
      assert calls == init + [c];
    }
  }

  lemma {:induction false} NoneCounted(calls: seq<Call>)
    requires forall c | c in calls && c.Failure? :: Weight(c.reason) == 0
    ensures Counted(calls) == 0
  {
    if calls != [] {
      NoneCounted(calls[..|calls| - 1]);
    }
  }

  /** A clean close, or a rejection with a code once data has come. */
  ghost predicate Harmless(calls: seq<Call>, i: nat)
    requires i < |calls|
  {
    && calls[i].Failure?
    && (calls[i].reason.CleanClose?
        || (calls[i].reason.ProtocolRejection? && calls[i].reason.code != 0 && Message in calls[..i]))
  }

  /**
   Zero-factor failures are never counted. A run of any length whose failures are only clean closes,
   rejections and dropped receivers never leaves Closed, whatever the limit; a clean close, or a
   rejection after data, is answered by an immediate retry every time, and any other of them gives up.
   */
  lemma {:induction false} UncountedNeverTrips(cfg: Config, calls: seq<Call>)
    requires Buildable(cfg) && Draws(calls) && forall c | c in calls && c.Failure? :: Weight(c.reason) == 0
    ensures var t := Run(cfg, calls);
            && t.policy.circuit.Closed? && t.policy.failures == 0 && |t.log| == |calls|
            && (forall i: nat | i < |calls| :: t.log[i] == if Harmless(calls, i) then Immediate else Quiet)
  {
    NoneCounted(calls);
    TripsExactlyAtTheLimit(cfg, calls);
    if calls != [] {
      var n := |calls| - 1;
      var init, c := calls[..n], calls[n];
      UncountedNeverTrips(cfg, init);
      NoneCounted(init);
      TripsExactlyAtTheLimit(cfg, init);
      var t, t' := Run(cfg, init), Run(cfg, calls);
      forall i: nat | i < n
        ensures t'.log[i] == if Harmless(calls, i) then Immediate else Quiet
      {
        assert calls[i] == init[i] && calls[..i] == init[..i];
      }
      assert t'.log[n] == if Harmless(calls, n) then Immediate else Quiet;
    }
  }

  // ---------------------------------------------------------------------------
  // Every answer, from what was called and noted before
  // ---------------------------------------------------------------------------

  /** The newest trip or probe since the last connection: none, and the circuit is closed. */
  ghost function LastMove(calls: seq<Call>, log: seq<Note>): Option<Note>
    requires |calls| == |log|
  {
    if calls == [] then None
    else
      var n := |calls| - 1;
      if calls[n].Connect? then None
      else if log[n].Tripped? || log[n].Probed? then Some(log[n])
      else LastMove(calls[..n], log[..n])
  }

  /** The backoffs since the delay was last reset by a connection or a message. */
  ghost function Backoffs(calls: seq<Call>, log: seq<Note>): nat
    requires |calls| == |log|
  {
    if calls == [] then 0
    else
      var n := |calls| - 1;
      if !calls[n].Failure? then 0 else Backoffs(calls[..n], log[..n]) + if log[n].BackedOff? then 1 else 0
  }

  /** A lost connection is worth another attempt: not a rejection before any data, nor a closed receiver. */
  ghost predicate Retried(calls: seq<Call>, r: Reason) {
    r != ReceiverDropped && (r.ProtocolRejection? ==> r.code != 0 && Message in calls)
  }

  /** The wait in milliseconds before jitter: the initial delay doubled per backoff, capped, and weighed. */
  ghost function Base(cfg: Config, backoffs: nat, r: Reason): nat {
    Weight(r) * (Min(cfg.initialDelay * Pow2(backoffs), cfg.maxDelay) / 1000)
  }

  /** What a failure is answered after these calls and notes. */
  ghost predicate AnswerIs(cfg: Config, calls: seq<Call>, log: seq<Note>, r: Reason, now: nat, a: Action)
    requires |calls| == |log|
  {
    var move := LastMove(calls, log);
    if !Retried(calls, r) then a == GiveUp
    else if move.Some? && move.value.Tripped? then
      var until := move.value.at + move.value.cooldown;
      a == if now < until then CircuitOpen(until) else RetryAfter(cfg.initialDelay)
    else if move.Some? then
      var trip := LastTrip(log);
      trip.Some? && trip.value.Tripped? && a == CircuitOpen(now + Min(2 * trip.value.cooldown, 8 * cfg.maxDelay))
    else if Weight(r) == 0 then a == RetryImmediately
    else if cfg.maxAttempts.Some? && Counted(calls) + 1 >= cfg.maxAttempts.value then
      a == CircuitOpen(now + 4 * cfg.maxDelay)
    else IsBackoff(cfg, Base(cfg, Backoffs(calls, log), r), a)
  }

  /** A wait between the base and the base plus its jitter, or a panic where no draw is possible. */
  ghost predicate IsBackoff(cfg: Config, base: nat, a: Action) {
    if cfg.jitter > 0.0 && base == 0 then a == Panic
    else
      && a.RetryAfter? && 1000 * base <= a.delay
      && a.delay as real <= 1000.0 * base as real * (1.0 + cfg.jitter)
      && (cfg.jitter == 0.0 ==> a.delay == 1000 * base)
  }

  /** The state of a policy, from what was called and noted. */
  ghost predicate HistoryOk(cfg: Config, calls: seq<Call>, t: Trace) {
    && |t.log| == |calls| && |t.answers| == |calls|
    && DelayOk(cfg, t) && CountsOk(cfg, t.policy, Counted(calls), Message in calls)
    && t.streak == Backoffs(calls, t.log)
    && var move := LastMove(calls, t.log);
       && (t.policy.circuit.Closed? <==> move.None?)
       && (t.policy.circuit.HalfOpen? <==> move.Some? && move.value.Probed?)
       && (t.policy.circuit.Open? <==> move.Some? && move.value.Tripped?)
       && (t.policy.circuit.Open? ==> t.policy.until == Some(move.value.at + move.value.cooldown))
       && (move.Some? ==> LastTrip(t.log).Some? && LastTrip(t.log).value.Tripped?
                          && t.policy.cooldown == LastTrip(t.log).value.cooldown)
  }

  lemma WeightIsFactor(r: Reason)
    ensures Weight(r) == DelayFactor(r)
  {}

  lemma MovesSnoc(calls: seq<Call>, log: seq<Note>, c: Call, n: Note)
    requires |calls| == |log|
    ensures LastMove(calls + [c], log + [n])
            == if c.Connect? then None else if n.Tripped? || n.Probed? then Some(n) else LastMove(calls, log)
    ensures Backoffs(calls + [c], log + [n])
            == if !c.Failure? then 0 else Backoffs(calls, log) + if n.BackedOff? then 1 else 0
  {
    assert (calls + [c])[..|calls|] == calls && (log + [n])[..|log|] == log;
  }

  lemma CountedSnoc(calls: seq<Call>, c: Call)
    ensures Counted(calls + [c]) == match c case Connect => 0 case Message => Counted(calls)
                                            case Failure(r, _, _) => Counted(calls) + if Weight(r) > 0 then 1 else 0
    ensures Message in calls + [c] <==> Message in calls || c == Message
  {
    assert (calls + [c])[..|calls|] == calls;
  }

  lemma JitteredWithout(base: nat, u: real)
    requires u >= 0.0
    ensures Jittered(base, 0.0, u) == base
  {
    assert base as real * 0.0 * u == 0.0;
  }

  /** A backoff's answer, from the delay the policy holds. */
  lemma BackoffAnswer(cfg: Config, s: Policy, r: Reason, u: real)
    requires cfg.jitter >= 0.0 && Draw(u)
    ensures IsBackoff(cfg, Weight(r) * (s.delay / 1000), Backoff(cfg, s, r, u).1)
  {
    WeightIsFactor(r);
    var base := BaseMillis(s.delay, r);
    assert base == Weight(r) * (s.delay / 1000);
    JitterIsBounded(base, cfg.jitter, u);
    JitteredWithout(base, u);
    var k := 1.0 + cfg.jitter;
    assert 1000.0 * (base as real * k) == 1000.0 * base as real * k;
  }

  lemma MovedAnswer(cfg: Config, calls: seq<Call>, t: Trace, r: Reason, now: nat, u: real)
    requires Buildable(cfg) && HistoryOk(cfg, calls, t) && Draw(u) && Retried(calls, r) && !t.policy.circuit.Closed?
    ensures AnswerIs(cfg, calls, t.log, r, now, Next(cfg, t.policy, r, now, u).1)
  {}

  ghost predicate AtLimit(cfg: Config, calls: seq<Call>) {
    cfg.maxAttempts.Some? && Counted(calls) + 1 >= cfg.maxAttempts.value
  }

  lemma ShortAnswer(cfg: Config, calls: seq<Call>, t: Trace, r: Reason, now: nat, u: real)
    requires Buildable(cfg) && HistoryOk(cfg, calls, t) && Draw(u) && Retried(calls, r) && t.policy.circuit.Closed?
    requires Weight(r) == 0 || AtLimit(cfg, calls)
    ensures AnswerIs(cfg, calls, t.log, r, now, Next(cfg, t.policy, r, now, u).1)
  {
    WeightIsFactor(r);
  }

  /** Below the limit a weighty loss is answered by the backoff. */
  lemma NextIsBackoff(cfg: Config, calls: seq<Call>, t: Trace, r: Reason, now: nat, u: real)
    requires Buildable(cfg) && HistoryOk(cfg, calls, t) && Draw(u) && Retried(calls, r) && t.policy.circuit.Closed?
    requires Weight(r) > 0 && !AtLimit(cfg, calls)
    ensures Next(cfg, t.policy, r, now, u) == Backoff(cfg, t.policy.(failures := t.policy.failures + 1), r, u)
  {
    WeightIsFactor(r);
  }

  lemma BackoffAnswerIs(
    cfg: Config, calls: seq<Call>, log: seq<Note>, s: Policy, r: Reason, now: nat, u: real)
    requires cfg.jitter >= 0.0 && Draw(u) && |calls| == |log| && Retried(calls, r) && LastMove(calls, log).None?
    requires Weight(r) > 0 && !AtLimit(cfg, calls)
    requires s.delay == Min(cfg.initialDelay * Pow2(Backoffs(calls, log)), cfg.maxDelay)
    ensures AnswerIs(cfg, calls, log, r, now, Backoff(cfg, s, r, u).1)
  {
    BackoffAnswer(cfg, s, r, u);
    var base, a := Weight(r) * (s.delay / 1000), Backoff(cfg, s, r, u).1;
    assert base == Base(cfg, Backoffs(calls, log), r);
    LastAnswerIs(cfg, calls, log, r, now, a);
  }

  lemma LastAnswerIs(cfg: Config, calls: seq<Call>, log: seq<Note>, r: Reason, now: nat, a: Action)
    requires |calls| == |log| && Retried(calls, r) && LastMove(calls, log).None?
    requires Weight(r) > 0 && !AtLimit(cfg, calls) && IsBackoff(cfg, Base(cfg, Backoffs(calls, log), r), a)
    ensures AnswerIs(cfg, calls, log, r, now, a)
  {}

  lemma AnswerFromHistory(cfg: Config, calls: seq<Call>, t: Trace, r: Reason, now: nat, u: real)
    requires Buildable(cfg) && HistoryOk(cfg, calls, t) && Draw(u)
    ensures AnswerIs(cfg, calls, t.log, r, now, Next(cfg, t.policy, r, now, u).1)
  {
    if Retried(calls, r) {
      if t.policy.circuit.Closed? {
        if Weight(r) == 0 || AtLimit(cfg, calls) {
          ShortAnswer(cfg, calls, t, r, now, u);
        } else {
          NextIsBackoff(cfg, calls, t, r, now, u);
          BackoffAnswerIs(cfg, calls, t.log, t.policy.(failures := t.policy.failures + 1), r, now, u);
        }
      } else {
        MovedAnswer(cfg, calls, t, r, now, u);
      }
    }
  }

  lemma HistorySnoc(cfg: Config, calls: seq<Call>, t: Trace, c: Call)
    requires Buildable(cfg) && HistoryOk(cfg, calls, t) && (c.Failure? ==> Draw(c.u))
    ensures HistoryOk(cfg, calls + [c], Turn(cfg, t, c))
  {
    var t' := Turn(cfg, t, c);
    var n := t'.log[|t.log|];
    TurnKeepsDelay(cfg, t, c);
    CallKeepsCounts(cfg, t, c, Counted(calls), Message in calls);
    CountedSnoc(calls, c);
    MovesSnoc(calls, t.log, c, n);
    LastTripSnoc(t.log, n);
    assert t'.log == t.log + [n];
  }

  lemma {:induction false} RunHasHistory(cfg: Config, calls: seq<Call>)
    requires Buildable(cfg) && Draws(calls)
    ensures HistoryOk(cfg, calls, Run(cfg, calls))
  {
    if calls == [] {
      assert cfg.initialDelay * Pow2(0) == cfg.initialDelay;
    } else {
      var init, c := calls[..|calls| - 1], calls[|calls| - 1];
      RunHasHistory(cfg, init);
      HistorySnoc(cfg, init, Run(cfg, init), c);
      assert calls == init + [c];
    }
  }

  lemma {:induction false} AnswersStay(cfg: Config, calls: seq<Call>, i: nat)
    requires Buildable(cfg) && Draws(calls) && i < |calls|
    ensures var t, u := Run(cfg, calls[..i + 1]), Run(cfg, calls);
            && |t.log| == |t.answers| == i + 1 && |u.log| == |u.answers| == |calls|
            && u.answers[i] == t.answers[i] && u.log[..i + 1] == t.log
  {
    RunHasHistory(cfg, calls);
    RunHasHistory(cfg, calls[..i + 1]);
    if i < |calls| - 1 {
      var init := calls[..|calls| - 1];
      AnswersStay(cfg, init, i);
      assert init[..i + 1] == calls[..i + 1];
    } else {
      assert calls[..i + 1] == calls;
    }
  }

  /**
   Every answer of every run, from the calls and notes before it. A loss not worth another attempt gives
   up. An open circuit refuses until its trip's full cooldown has passed and then allows one attempt after
   the initial delay; a failed attempt trips it again for twice as long, at most 8 times the maximum. A
   closed circuit retries weightless losses at once, trips for 4 times the maximum at the limit, and
   otherwise backs off: by the initial delay doubled per backoff since the last reset, capped, in whole
   milliseconds, times the weight, and at most the jitter's fraction more.
   */
  lemma AnswersAreExact(cfg: Config, calls: seq<Call>, i: nat)
    requires Buildable(cfg) && Draws(calls) && i < |calls|
    ensures var t := Run(cfg, calls);
            && |t.log| == |t.answers| == |calls|
            && (calls[i].Failure? <==> t.answers[i].Some?)
            && (calls[i].Failure? ==>
                  AnswerIs(cfg, calls[..i], t.log[..i], calls[i].reason, calls[i].now, t.answers[i].value))
  {
    var before, c := calls[..i], calls[i];
    assert calls[..i + 1] == before + [c] && (before + [c])[..i] == before;
    RunHasHistory(cfg, before);
    AnswersStay(cfg, calls, i);
    var s, t, u := Run(cfg, before), Run(cfg, calls[..i + 1]), Run(cfg, calls);
    assert t == Turn(cfg, s, c) && t.log[..i] == s.log && u.log[..i] == t.log[..i];
    if c.Failure? {
      AnswerFromHistory(cfg, before, s, c.reason, c.now, c.u);
    }
  }
}
