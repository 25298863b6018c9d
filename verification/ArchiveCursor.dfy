/**
 The resumable archive backfill (`resume_index`, `write_cursor` and the per-key loop of `spawn` in
 aetelier-connect/src/framework/entrepot.rs).

 One backfill walks the planned keys in order and records the last handled key in a cursor file. The
 environment decides what each fetch brings, whether the receiver is still there, whether the cursor
 write succeeds, and when the process stops. A history is any sequence of such events over any number
 of starts.
 */
module ArchiveCursor {
  import opened Wrappers
  import opened ArchivePlan

  type Date = int

  /** `date` is `key_date`; `edge` is the last day known to be published. */
  datatype Plan = Plan(keys: seq<Key>, date: Key -> Option<Date>, edge: Option<Date>)

  datatype Fetched =
    | Absent
    | Corrupt
    | Unreachable
    | Bytes(decodes: bool, delivered: bool)

  datatype Write = Succeeds | Fails | NeverReached

  datatype Event =
    | Start
    | Crash
    | Shutdown
    | Reach(fetched: Fetched, write: Write)

  datatype Outcome = BeyondEdge | Gap | IntegrityFailure | DecodeFailure | Emitted

  datatype Done = Done(index: nat, outcome: Outcome, saved: bool)

  /** `at` is the key a running backfill has reached, None between runs. */
  datatype Progress = Progress(cursor: Option<Key>, log: seq<Done>, at: Option<nat>)

  // ---------------------------------------------------------------------------
  // The machine
  // ---------------------------------------------------------------------------

  /** The first position of a key. */
  function Position(keys: seq<Key>, key: Key): nat
    requires key in keys
  {
    if keys[0] == key then 0 else 1 + Position(keys[1..], key)
  }

  function Resume(keys: seq<Key>, cursor: Option<Key>): nat {
    if cursor.Some? && cursor.value in keys then Position(keys, cursor.value) + 1 else 0
  }

  function AbsentOutcome(plan: Plan, key: Key): Outcome {
    if plan.edge.None? then BeyondEdge
    else if plan.date(key).Some? && plan.date(key).value > plan.edge.value then BeyondEdge
    else Gap
  }

  /** None: the key is not finished and the run ends. */
  function Classify(plan: Plan, key: Key, f: Fetched): Option<Outcome> {
    match f
    case Absent => Some(AbsentOutcome(plan, key))
    case Corrupt => Some(IntegrityFailure)
    case Unreachable => None
    case Bytes(decodes, delivered) =>
      if !decodes then Some(DecodeFailure) else if delivered then Some(Emitted) else None
  }

  function Handle(plan: Plan, persist: bool, s: Progress, i: nat, f: Fetched, w: Write): Progress
    requires i < |plan.keys|
  {
    var outcome := Classify(plan, plan.keys[i], f);
    if outcome.None? then s.(at := None)
    else
      var saved := persist && w.Succeeds?;
      Progress(if saved then Some(plan.keys[i]) else s.cursor,
           s.log + [Done(i, outcome.value, saved)],
           if w.NeverReached? then None else Some(i + 1))
  }

  function Step(plan: Plan, persist: bool, s: Progress, e: Event): Progress {
    match s.at
    case None =>
      if e.Start? then s.(at := Some(if persist then Resume(plan.keys, s.cursor) else 0)) else s
    case Some(i) =>
      match e
      case Start => s
      case Crash => s.(at := None)
      case Shutdown => s.(at := None)
      case Reach(f, w) => if i < |plan.keys| then Handle(plan, persist, s, i, f, w) else s
  }

  function Run(plan: Plan, persist: bool, s: Progress, events: seq<Event>): Progress {
    if events == [] then s
    else Step(plan, persist, Run(plan, persist, s, events[..|events| - 1]), events[|events| - 1])
  }

  // ---------------------------------------------------------------------------
  // Nothing is skipped
  // ---------------------------------------------------------------------------

  /** Before the first run: only whatever the cursor file holds. */
  function Fresh(cursor: Option<Key>): Progress {
    Progress(cursor, [], None)
  }

  /** Where a first run starts. */
  function FirstKey(plan: Plan, persist: bool, cursor: Option<Key>): nat {
    if persist then Resume(plan.keys, cursor) else 0
  }

  /** Key j was handled in the first p entries, or before this plan was ever run. */
  ghost predicate HandledBy(earlier: set<nat>, log: seq<Done>, p: nat, j: nat) {
    j in earlier || exists q | 0 <= q < p && q < |log| :: log[q].index == j
  }

  ghost predicate Handled(earlier: set<nat>, log: seq<Done>, j: nat) {
    HandledBy(earlier, log, |log|, j)
  }

  /** Every key before a handled one was handled earlier. */
  ghost predicate InOrder(earlier: set<nat>, log: seq<Done>) {
    forall p, j: nat | 0 <= p < |log| && j < log[p].index :: HandledBy(earlier, log, p, j)
  }

  ghost predicate Safe(plan: Plan, persist: bool, earlier: set<nat>, s: Progress) {
    && InOrder(earlier, s.log)
    && (forall j: nat | j < FirstKey(plan, persist, s.cursor) :: Handled(earlier, s.log, j))
    && (s.at.Some? ==> s.at.value <= |plan.keys| && forall j: nat | j < s.at.value :: Handled(earlier, s.log, j))
  }

  lemma {:induction false} PositionIsFirst(keys: seq<Key>, key: Key)
    requires key in keys
    ensures Position(keys, key) < |keys| && keys[Position(keys, key)] == key
    ensures forall i | 0 <= i < Position(keys, key) :: keys[i] != key
  {
    if keys[0] != key {
      PositionIsFirst(keys[1..], key);
      var n := Position(keys[1..], key);
      forall i | 0 <= i < n + 1
        ensures keys[i] != key
      {
        if i > 0 {
          assert keys[i] == keys[1..][i - 1];
        }
      }
    }
  }

  lemma LogGrows(earlier: set<nat>, log: seq<Done>, d: Done)
    requires InOrder(earlier, log) && forall j: nat | j < d.index :: Handled(earlier, log, j)
    ensures InOrder(earlier, log + [d])
    ensures forall j: nat | Handled(earlier, log, j) || j == d.index :: Handled(earlier, log + [d], j)
  {
    var log' := log + [d];
    assert forall q | 0 <= q < |log| :: log'[q] == log[q];
    forall p, j: nat | 0 <= p < |log'| && j < log'[p].index
      ensures HandledBy(earlier, log', p, j)
    {
      if p == |log| {
        assert Handled(earlier, log, j);
      }
      assert HandledBy(earlier, log, p, j);
    }
    assert log'[|log|].index == d.index;
  }

  lemma HandleIsSafe(plan: Plan, persist: bool, earlier: set<nat>, s: Progress, i: nat, f: Fetched, w: Write)
    requires Safe(plan, persist, earlier, s) && s.at == Some(i) && i < |plan.keys|
    ensures Safe(plan, persist, earlier, Handle(plan, persist, s, i, f, w))
  {
    var outcome := Classify(plan, plan.keys[i], f);
    if outcome.Some? {
      LogGrows(earlier, s.log, Done(i, outcome.value, persist && w.Succeeds?));
      PositionIsFirst(plan.keys, plan.keys[i]);
    }
  }

  lemma ResumeIsInPlan(keys: seq<Key>, cursor: Option<Key>)
    ensures Resume(keys, cursor) <= |keys|
  {
    if cursor.Some? && cursor.value in keys {
      PositionIsFirst(keys, cursor.value);
    }
  }

  lemma StepIsSafe(plan: Plan, persist: bool, earlier: set<nat>, s: Progress, e: Event)
    requires Safe(plan, persist, earlier, s)
    ensures Safe(plan, persist, earlier, Step(plan, persist, s, e))
  {
    if s.at.Some? && e.Reach? && s.at.value < |plan.keys| {
      HandleIsSafe(plan, persist, earlier, s, s.at.value, e.fetched, e.write);
    } else {
      ResumeIsInPlan(plan.keys, s.cursor);
    }
  }

  lemma {:induction false} RunIsSafe(plan: Plan, persist: bool, earlier: set<nat>, s: Progress, events: seq<Event>)
    requires Safe(plan, persist, earlier, s)
    ensures Safe(plan, persist, earlier, Run(plan, persist, s, events))
  {
    if events != [] {
      RunIsSafe(plan, persist, earlier, s, events[..|events| - 1]);
      StepIsSafe(plan, persist, earlier, Run(plan, persist, s, events[..|events| - 1]), events[|events| - 1]);
    }
  }

  /**
   Cursor safety. Let `earlier` be the keys handled before this plan was ever run (none for a new
   backfill; the keys of an earlier window or listing when its cursor file is reused), and let it hold
   every key before the one the first run starts at. Then, whatever happened over any number of runs,
   whether or not cursor writes succeeded and whether or not keys repeat: no key was handled before
   every earlier one, and every key before the cursor's place was handled.
   */
  lemma NoKeyIsSkipped(plan: Plan, persist: bool, cursor: Option<Key>, earlier: set<nat>, events: seq<Event>)
    requires forall j: nat | j < FirstKey(plan, persist, cursor) :: j in earlier
    ensures var s := Run(plan, persist, Fresh(cursor), events);
            && InOrder(earlier, s.log)
            && (forall j: nat | j < FirstKey(plan, persist, s.cursor) :: Handled(earlier, s.log, j))
            && Finishes(plan, earlier, s)
  {
    RunIsSafe(plan, persist, earlier, Fresh(cursor), events);
  }

  /** A run that has walked off the end has left no key of the plan unhandled. */
  ghost predicate Finishes(plan: Plan, earlier: set<nat>, s: Progress) {
    s.at == Some(|plan.keys|) ==> forall j: nat | j < |plan.keys| :: Handled(earlier, s.log, j)
  }

  /** Nothing goes wrong at a key. */
  const OK := Reach(Bytes(true, true), Succeeds)

  function Smooth(n: nat): seq<Event> {
    if n == 0 then [Start] else Smooth(n - 1) + [OK]
  }

  function SmoothLog(from: nat, n: nat, saved: bool): seq<Done> {
    if n == 0 then [] else SmoothLog(from, n - 1, saved) + [Done(from + n - 1, Emitted, saved)]
  }

  lemma {:induction false} SmoothLogAt(from: nat, n: nat, saved: bool)
    ensures |SmoothLog(from, n, saved)| == n
    ensures forall i | 0 <= i < n :: SmoothLog(from, n, saved)[i] == Done(from + i, Emitted, saved)
  {
    if n > 0 {
      SmoothLogAt(from, n - 1, saved);
    }
  }

  ghost function SmoothState(plan: Plan, persist: bool, cursor: Option<Key>, n: nat): Progress
    requires FirstKey(plan, persist, cursor) + n <= |plan.keys|
  {
    var from := FirstKey(plan, persist, cursor);
    Progress(if n > 0 && persist then Some(plan.keys[from + n - 1]) else cursor,
             SmoothLog(from, n, persist), Some(from + n))
  }

  /** An undisturbed run handles n keys in a row. */
  lemma {:induction false} SmoothRun(plan: Plan, persist: bool, cursor: Option<Key>, n: nat)
    requires FirstKey(plan, persist, cursor) + n <= |plan.keys|
    ensures Run(plan, persist, Fresh(cursor), Smooth(n)) == SmoothState(plan, persist, cursor, n)
  {
    if n == 0 {
      RunStep(plan, persist, Fresh(cursor), [], Start, Fresh(cursor), SmoothState(plan, persist, cursor, 0));
      assert [] + [Start] == [Start];
    } else {
      SmoothRun(plan, persist, cursor, n - 1);
      SmoothNext(plan, persist, cursor, n - 1);
      RunStep(plan, persist, Fresh(cursor), Smooth(n - 1), OK,
              SmoothState(plan, persist, cursor, n - 1), SmoothState(plan, persist, cursor, n));
    }
  }

  lemma SmoothNext(plan: Plan, persist: bool, cursor: Option<Key>, n: nat)
    requires FirstKey(plan, persist, cursor) + n < |plan.keys|
    ensures Step(plan, persist, SmoothState(plan, persist, cursor, n), OK) == SmoothState(plan, persist, cursor, n + 1)
  {
    SmoothStep(plan, persist, SmoothState(plan, persist, cursor, n));
  }

  lemma RunStep(plan: Plan, persist: bool, s0: Progress, events: seq<Event>, e: Event, s: Progress, s': Progress)
    requires Run(plan, persist, s0, events) == s && Step(plan, persist, s, e) == s'
    ensures Run(plan, persist, s0, events + [e]) == s'
  {
    RunSnoc(plan, persist, s0, events, e);
  }

  lemma SmoothStep(plan: Plan, persist: bool, s: Progress)
    requires s.at.Some? && s.at.value < |plan.keys|
    ensures var i := s.at.value;
            Step(plan, persist, s, OK)
            == Progress(if persist then Some(plan.keys[i]) else s.cursor,
                        s.log + [Done(i, Emitted, persist)], Some(i + 1))
  {}

  /**
   The condition is exact: every run that walks off the end has left nothing out if and only if the
   keys before the starting place had been handled. A cursor file that names a key of the plan without
   them skips them.
   */
  lemma NothingIsSkippedIff(plan: Plan, persist: bool, cursor: Option<Key>, earlier: set<nat>)
    ensures (forall events :: Finishes(plan, earlier, Run(plan, persist, Fresh(cursor), events)))
            <==> forall j: nat | j < FirstKey(plan, persist, cursor) :: j in earlier
  {
    var from := FirstKey(plan, persist, cursor);
    if forall j: nat | j < from :: j in earlier {
      forall events
        ensures Finishes(plan, earlier, Run(plan, persist, Fresh(cursor), events))
      {
        NoKeyIsSkipped(plan, persist, cursor, earlier, events);
      }
    } else {
      ResumeIsInPlan(plan.keys, cursor);
      var j: nat :| j < from && j !in earlier;
      var n := |plan.keys| - from;
      SmoothRun(plan, persist, cursor, n);
      SmoothLogAt(from, n, persist);
      assert !Handled(earlier, SmoothLog(from, n, persist), j);
      assert !Finishes(plan, earlier, Run(plan, persist, Fresh(cursor), Smooth(n)));
    }
  }

  // ---------------------------------------------------------------------------
  // What handling a key means
  // ---------------------------------------------------------------------------

  /** The fetch settles its key: absent, corrupt, undecodable, or decoded with every event delivered. */
  ghost predicate Settles(f: Fetched) {
    f == Absent || f == Corrupt || f == Bytes(false, f.Bytes? && f.delivered) || f == Bytes(true, true)
  }

  ghost predicate PastEdge(plan: Plan, key: Key) {
    plan.edge == None || (plan.date(key) != None && plan.date(key).value > plan.edge.value)
  }

  /** The one outcome a settled key is counted under. */
  ghost predicate IsOutcome(plan: Plan, key: Key, f: Fetched, o: Outcome) {
    && (o == Emitted <==> f == Bytes(true, true))
    && (o == DecodeFailure <==> f.Bytes? && !f.decodes)
    && (o == IntegrityFailure <==> f == Corrupt)
    && (o == BeyondEdge <==> f == Absent && PastEdge(plan, key))
    && (o == Gap <==> f == Absent && !PastEdge(plan, key))
  }

  /** The event brings a running backfill the fetch of a key of the plan. */
  ghost predicate Reaches(plan: Plan, s: Progress, e: Event) {
    s.at.Some? && s.at.value < |plan.keys| && e.Reach?
  }

  /** One event and what it does to the cursor, the record and the place. */
  ghost predicate Effect(plan: Plan, persist: bool, s: Progress, s': Progress, e: Event) {
    if Reaches(plan, s, e) && Settles(e.fetched) then
      var i := s.at.value;
      && |s'.log| == |s.log| + 1 && s'.log[..|s.log|] == s.log
      && var d := s'.log[|s.log|];
         && d.index == i && IsOutcome(plan, plan.keys[i], e.fetched, d.outcome)
         && (d.saved <==> persist && e.write == Succeeds)
         && s'.cursor == (if d.saved then Some(plan.keys[i]) else s.cursor)
         && s'.at == (if e.write == NeverReached then None else Some(i + 1))
    else
      && s'.log == s.log && s'.cursor == s.cursor
      && (Reaches(plan, s, e) || (s.at.Some? && (e.Crash? || e.Shutdown?)) ==> s'.at == None)
      && (s.at == None ==> s'.at == if e == Start then Some(FirstKey(plan, persist, s.cursor)) else None)
  }

  lemma StepHasEffect(plan: Plan, persist: bool, s: Progress, e: Event)
    ensures Effect(plan, persist, s, Step(plan, persist, s, e), e)
  {}

  /**
   A key is recorded by the event that settles it and by nothing else. Over every run: event k adds
   exactly one entry, of the key the run had reached, under the one outcome its fetch deserves, if it is a
   fetch that settles that key; otherwise cursor and record stay, and a fetch that failed or found the
   receiver gone ends the run there.
   */
  lemma RecordedIff(plan: Plan, persist: bool, cursor: Option<Key>, events: seq<Event>, k: nat)
    requires k < |events|
    ensures Effect(plan, persist, Run(plan, persist, Fresh(cursor), events[..k]),
                   Run(plan, persist, Fresh(cursor), events[..k + 1]), events[k])
  {
    assert events[..k + 1] == events[..k] + [events[k]];
    RunSnoc(plan, persist, Fresh(cursor), events[..k], events[k]);
    StepHasEffect(plan, persist, Run(plan, persist, Fresh(cursor), events[..k]), events[k]);
  }

  /** Event k settled key j, which the run had reached. */
  ghost predicate SettledAt(plan: Plan, persist: bool, cursor: Option<Key>, events: seq<Event>, k: int, j: int) {
    && 0 <= k < |events|
    && var t := Run(plan, persist, Fresh(cursor), events[..k]);
       Reaches(plan, t, events[k]) && t.at.value == j && Settles(events[k].fetched)
  }

  lemma {:induction false} EveryEntryWasSettled(
    plan: Plan, persist: bool, cursor: Option<Key>, events: seq<Event>, q: nat) returns (k: nat)
    requires q < |Run(plan, persist, Fresh(cursor), events).log|
    ensures SettledAt(plan, persist, cursor, events, k, Run(plan, persist, Fresh(cursor), events).log[q].index)
  {
    var n := |events| - 1;
    var init := events[..n];
    var t := Run(plan, persist, Fresh(cursor), init);
    StepHasEffect(plan, persist, t, events[n]);
    if q < |t.log| {
      k := EveryEntryWasSettled(plan, persist, cursor, init, q);
      assert init[..k] == events[..k] && init[k] == events[k];
      assert t.log[q] == Run(plan, persist, Fresh(cursor), events).log[q];
    } else {
      k := n;
    }
  }

  /**
   Every key before the cursor's place, and every key of the plan once a run has walked off the end, was
   settled by a fetch of this backfill or handled earlier: a key that could not be fetched, or whose events
   did not reach the receiver, is not passed over.
   */
  lemma PassedKeysWereSettled(
    plan: Plan, persist: bool, cursor: Option<Key>, earlier: set<nat>, events: seq<Event>, j: nat)
    requires forall i: nat | i < FirstKey(plan, persist, cursor) :: i in earlier
    requires var s := Run(plan, persist, Fresh(cursor), events);
             j < FirstKey(plan, persist, s.cursor) || (s.at == Some(|plan.keys|) && j < |plan.keys|)
    ensures j in earlier || exists k :: SettledAt(plan, persist, cursor, events, k, j)
  {
    NoKeyIsSkipped(plan, persist, cursor, earlier, events);
    var s := Run(plan, persist, Fresh(cursor), events);
    assert Handled(earlier, s.log, j);
    if j !in earlier {
      var q :| 0 <= q < |s.log| && s.log[q].index == j;
      var k := EveryEntryWasSettled(plan, persist, cursor, events, q);
      assert SettledAt(plan, persist, cursor, events, k, j);
    }
  }

  // ---------------------------------------------------------------------------
  // Nothing is repeated, except what was interrupted
  // ---------------------------------------------------------------------------

  ghost function Next(from: nat, log: seq<Done>): nat {
    if log == [] then from
    else log[|log| - 1].index + if log[|log| - 1].saved then 1 else 0
  }

  /** Each entry is the key right after a saved one, or the unsaved key again. */
  ghost predicate Walk(from: nat, log: seq<Done>) {
    forall p | 0 <= p < |log| :: log[p].index == Next(from, log[..p])
  }

  ghost predicate Exact(plan: Plan, from: nat, s: Progress) {
    && Walk(from, s.log)
    && Resume(plan.keys, s.cursor) == Next(from, s.log)
    && (s.at.Some? ==> s.at.value == Next(from, s.log))
  }

  lemma WalkGrows(from: nat, log: seq<Done>, d: Done)
    requires Walk(from, log) && d.index == Next(from, log)
    ensures Walk(from, log + [d])
  {
    var log' := log + [d];
    forall p | 0 <= p < |log'|
      ensures log'[p].index == Next(from, log'[..p])
    {
      assert log'[..p] == log[..p];
      assert log[..|log|] == log;
    }
  }

  lemma DistinctPosition(keys: seq<Key>, i: nat)
    requires Distinct(keys) && i < |keys|
    ensures Position(keys, keys[i]) == i
  {
    PositionIsFirst(keys, keys[i]);
  }

  lemma StepIsExact(plan: Plan, from: nat, s: Progress, e: Event)
    requires Distinct(plan.keys) && Exact(plan, from, s) && !(e.Reach? && e.write.Fails?)
    ensures Exact(plan, from, Step(plan, true, s, e))
  {
    if s.at.Some? && e.Reach? && s.at.value < |plan.keys| {
      var i := s.at.value;
      var outcome := Classify(plan, plan.keys[i], e.fetched);
      if outcome.Some? {
        WalkGrows(from, s.log, Done(i, outcome.value, e.write.Succeeds?));
        DistinctPosition(plan.keys, i);
      }
    }
  }

  /** No cursor write is attempted and fails. */
  ghost predicate WritesSucceed(events: seq<Event>) {
    forall e | e in events :: !(e.Reach? && e.write.Fails?)
  }

  lemma {:induction false} RunIsExact(plan: Plan, cursor: Option<Key>, events: seq<Event>)
    requires Distinct(plan.keys) && WritesSucceed(events)
    ensures Exact(plan, Resume(plan.keys, cursor), Run(plan, true, Fresh(cursor), events))
  {
    if events != [] {
      RunIsExact(plan, cursor, events[..|events| - 1]);
      StepIsExact(plan, Resume(plan.keys, cursor),
                  Run(plan, true, Fresh(cursor), events[..|events| - 1]), events[|events| - 1]);
    }
  }

  lemma {:induction false} WalkClimbs(from: nat, log: seq<Done>, p: nat, q: nat)
    requires Walk(from, log) && p < q < |log|
    ensures log[q].index >= Next(from, log[..p + 1])
    decreases q
  {
    assert log[..q][q - 1] == log[q - 1];
    if p < q - 1 {
      WalkClimbs(from, log, p, q - 1);
    }
  }

  /**
   With distinct keys and cursor writes that succeed, from whatever cursor, the handled keys climb: a
   key is handled again only if the process stopped between handling it and writing the cursor.
   */
  lemma OnlyInterruptedKeysRepeat(plan: Plan, cursor: Option<Key>, events: seq<Event>)
    requires Distinct(plan.keys) && WritesSucceed(events)
    ensures var log := Run(plan, true, Fresh(cursor), events).log;
            Walk(Resume(plan.keys, cursor), log) && !RepeatsSaved(log)
            && forall p, q | 0 <= p < q < |log| :: log[p].index <= log[q].index
  {
    RunIsExact(plan, cursor, events);
    var from, log := Resume(plan.keys, cursor), Run(plan, true, Fresh(cursor), events).log;
    forall p, q | 0 <= p < q < |log|
      ensures log[p].index <= log[q].index && (log[p].index == log[q].index ==> !log[p].saved)
    {
      WalkClimbs(from, log, p, q);
      assert log[..p + 1][p] == log[p];
    }
  }

  /** A key is handled again although its cursor was written. */
  ghost predicate RepeatsSaved(log: seq<Done>) {
    exists p, q :: 0 <= p < q < |log| && log[p].saved && log[p].index == log[q].index
  }

  /** Walk to the repetition of a key, stop, start again, and handle one more key. */
  function RepeatingRun(j: nat): seq<Event> {
    Smooth(j + 1) + [Crash] + [Start] + [OK]
  }

  lemma {:induction false} SmoothWrites(n: nat)
    ensures WritesSucceed(Smooth(n))
  {
    if n > 0 {
      SmoothWrites(n - 1);
    }
  }

  lemma RepeatingRunWrites(j: nat)
    ensures WritesSucceed(RepeatingRun(j))
  {
    SmoothWrites(j + 1);
  }

  lemma RepeatedKeyRepeatsWork(plan: Plan, i: nat, j: nat)
    requires i < j < |plan.keys| && plan.keys[i] == plan.keys[j]
    ensures WritesSucceed(RepeatingRun(j)) && RepeatsSaved(Run(plan, true, Fresh(None), RepeatingRun(j)).log)
  {
    RepeatingRunWrites(j);
    SmoothRun(plan, true, None, j + 1);
    SmoothLogAt(0, j + 1, true);
    PositionIsFirst(plan.keys, plan.keys[j]);
    RestartRepeats(plan, Smooth(j + 1), plan.keys[j], SmoothLog(0, j + 1, true), j + 1);
  }

  lemma RestartRepeats(plan: Plan, events: seq<Event>, key: Key, log: seq<Done>, at: nat)
    requires key in plan.keys && Run(plan, true, Fresh(None), events) == Progress(Some(key), log, Some(at))
    requires Position(plan.keys, key) + 1 < |plan.keys|
    requires var k := Position(plan.keys, key) + 1; k < |log| && log[k] == Done(k, Emitted, true)
    ensures RepeatsSaved(Run(plan, true, Fresh(None), events + [Crash] + [Start] + [OK]).log)
  {
    RestartHandles(plan, events, key, log, at);
    OnceMore(log, Position(plan.keys, key) + 1);
  }

  lemma OnceMore(log: seq<Done>, k: nat)
    requires k < |log| && log[k] == Done(k, Emitted, true)
    ensures RepeatsSaved(log + [Done(k, Emitted, true)])
  {
    var log' := log + [Done(k, Emitted, true)];
    assert log'[k] == log[k] && log'[|log|] == Done(k, Emitted, true);
  }

  /** Stop, start again, handle one more key: the one after the cursor's first place. */
  lemma RestartHandles(plan: Plan, events: seq<Event>, key: Key, log: seq<Done>, at: nat)
    requires key in plan.keys && Run(plan, true, Fresh(None), events) == Progress(Some(key), log, Some(at))
    requires Position(plan.keys, key) + 1 < |plan.keys|
    ensures Run(plan, true, Fresh(None), events + [Crash] + [Start] + [OK]).log
            == log + [Done(Position(plan.keys, key) + 1, Emitted, true)]
  {
    var s0, k := Fresh(None), Position(plan.keys, key) + 1;
    var stopped, started := Progress(Some(key), log, None), Progress(Some(key), log, Some(k));
    RunStep(plan, true, s0, events, Crash, Progress(Some(key), log, Some(at)), stopped);
    RunStep(plan, true, s0, events + [Crash], Start, stopped, started);
    SmoothStep(plan, true, started);
    RunStep(plan, true, s0, events + [Crash] + [Start], OK, started, Step(plan, true, started, OK));
  }

  /** A saved key can be handled again if and only if the plan repeats a key. */
  lemma RepeatsIff(plan: Plan)
    ensures (exists events :: WritesSucceed(events) && RepeatsSaved(Run(plan, true, Fresh(None), events).log))
            <==> !Distinct(plan.keys)
  {
    if Distinct(plan.keys) {
      forall events | WritesSucceed(events)
        ensures !RepeatsSaved(Run(plan, true, Fresh(None), events).log)
      {
        OnlyInterruptedKeysRepeat(plan, None, events);
      }
    } else {
      var i, j :| 0 <= i < j < |plan.keys| && plan.keys[i] == plan.keys[j];
      RepeatedKeyRepeatsWork(plan, i, j);
    }
  }

  /** For a window: exactly when it has a day and names a coin twice. */
  lemma WindowRepeatsIff(
    text: int -> string, start: int, days: nat, contexts: bool, coins: seq<string>,
    date: Key -> Option<Date>, edge: Option<Date>)
    requires DayTexts(text, start, days)
    ensures var plan := Plan(Planned(text, start, days, contexts, coins), date, edge);
            (exists events :: WritesSucceed(events) && RepeatsSaved(Run(plan, true, Fresh(None), events).log))
            <==> days > 0 && !Distinct(coins)
  {
    PlanIsDistinct(text, start, days, contexts, coins);
    RepeatsIff(Plan(Planned(text, start, days, contexts, coins), date, edge));
  }

  lemma RunSnoc(plan: Plan, persist: bool, s: Progress, events: seq<Event>, e: Event)
    ensures Run(plan, persist, s, events + [e]) == Step(plan, persist, Run(plan, persist, s, events), e)
  {
    assert (events + [e])[..|events|] == events;
  }

  // ---------------------------------------------------------------------------
  // The backfill
  // ---------------------------------------------------------------------------

  class Backfill {
    const plan: Plan
    const persist: bool
    var cursor: Option<Key>
    var log: seq<Done>

    constructor (plan: Plan, persist: bool, cursor: Option<Key>)
      ensures this.plan == plan && this.persist == persist && this.cursor == cursor && log == []
    {
      this.plan, this.persist, this.cursor, log := plan, persist, cursor, [];
    }

    function View(at: Option<nat>): Progress
      reads this
    {
      Progress(cursor, log, at)
    }

    method ResumeIndex() returns (n: nat)
      ensures n == if persist then Resume(plan.keys, cursor) else 0
      ensures n <= |plan.keys|
    {
      if !persist || cursor.None? {
        return 0;
      }
      for i := 0 to |plan.keys|
        invariant forall j | 0 <= j < i :: plan.keys[j] != cursor.value
      {
        if plan.keys[i] == cursor.value {
          PositionIsFirst(plan.keys, cursor.value);
          return i + 1;
        }
      }
      n := 0;
    }

    method HandleKey(i: nat, f: Fetched, w: Write) returns (at: Option<nat>)
      requires i < |plan.keys|
      modifies this
      ensures View(at) == Handle(plan, persist, old(View(Some(i))), i, f, w)
      ensures at.Some? ==> at.value == i + 1
    {
      var outcome := Classify(plan, plan.keys[i], f);
      if outcome.None? {
        return None;
      }
      var saved := persist && w.Succeeds?;
      log := log + [Done(i, outcome.value, saved)];
      if saved {
        cursor := Some(plan.keys[i]);
      }
      at := if w.NeverReached? then None else Some(i + 1);
    }

    /**
     One run: what each fetch brings is read from `fates` until the run ends or they run out. The
     end state is the machine's, started and fed the fates used.
     */
    method Spawn(fates: seq<Event>) returns (at: Option<nat>, used: nat)
      modifies this
      ensures used <= |fates|
      ensures View(at) == Run(plan, persist, old(View(None)), [Start] + fates[..used])
      ensures at.None? || at.value >= |plan.keys| || used == |fates|
    {
      ghost var s0 := View(None);
      var i := ResumeIndex();
      at, used := Some(i), 0;
      RunSnoc(plan, persist, s0, [], Start);
      assert [] + [Start] == [Start] + fates[..0];
      while used < |fates| && at.Some? && i < |plan.keys|
        invariant used <= |fates|
        invariant View(at) == Run(plan, persist, s0, [Start] + fates[..used])
        invariant at.Some? ==> at.value == i
        decreases |fates| - used
      {
        RunSnoc(plan, persist, s0, [Start] + fates[..used], fates[used]);
        assert [Start] + fates[..used] + [fates[used]] == [Start] + fates[..used + 1];
        match fates[used] {
          case Start =>
          case Crash => at := None;
          case Shutdown => at := None;
          case Reach(f, w) =>
            at := HandleKey(i, f, w);
            i := i + 1;
        }
        used := used + 1;
      }
    }
  }
}
