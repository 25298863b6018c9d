/**
 The lock-free connection epoch (`next_conn_epoch_us` in aetelier-connect/src/framework/budget.rs):
 any number of threads read the clock, load the shared cell and compare-and-swap until they win.

 A load, and the value a failed swap reports, may be any 64-bit value: relaxed reads may be stale, and
 a weak swap may fail for no reason. Only a swap that finds the cell as expected changes it.
 */
module ConnEpoch {
  const U64_MAX: nat := 0xFFFF_FFFF_FFFF_FFFF

  type Thread = nat

  /** Where a thread stands inside its call. */
  datatype Local = Clocked(now: nat) | Loaded(now: nat, prev: nat)

  datatype Win = Win(thread: Thread, now: nat, epoch: nat)

  datatype State = State(cell: nat, locals: map<Thread, Local>, wins: seq<Win>)

  datatype Action =
    | ReadClock(thread: Thread, now: nat)
    | Load(thread: Thread, observed: nat)
    | Swap(thread: Thread)
    | SwapFails(thread: Thread, observed: nat)

  function SaturatingSucc(n: nat): nat {
    if n < U64_MAX then n + 1 else U64_MAX
  }

  function Max(a: nat, b: nat): nat {
    if a >= b then a else b
  }

  function NextEpoch(now: nat, prev: nat): nat {
    Max(now, SaturatingSucc(prev))
  }

  /** A swap that can succeed may still fail; one that cannot must. */
  predicate Possible(s: State, a: Action) {
    match a
    case ReadClock(t, now) => t !in s.locals && now <= U64_MAX
    case Load(t, observed) => t in s.locals && s.locals[t].Clocked? && observed <= U64_MAX
    case Swap(t) => t in s.locals && s.locals[t].Loaded? && s.locals[t].prev == s.cell
    case SwapFails(t, observed) => t in s.locals && s.locals[t].Loaded? && observed <= U64_MAX
  }

  function Step(s: State, a: Action): State {
    if !Possible(s, a) then s
    else
      match a
      case ReadClock(t, now) => s.(locals := s.locals[t := Clocked(now)])
      case Load(t, observed) => s.(locals := s.locals[t := Loaded(s.locals[t].now, observed)])
      case Swap(t) =>
        var me := s.locals[t];
        var next := NextEpoch(me.now, me.prev);
        State(next, s.locals - {t}, s.wins + [Win(t, me.now, next)])
      case SwapFails(t, observed) => s.(locals := s.locals[t := Loaded(s.locals[t].now, observed)])
  }

  function Run(initial: nat, actions: seq<Action>): State {
    if actions == [] then State(initial, map[], [])
    else Step(Run(initial, actions[..|actions| - 1]), actions[|actions| - 1])
  }

  // ---------------------------------------------------------------------------
  // The simple form
  // ---------------------------------------------------------------------------

  /** One caller after another: the cell after the calls whose clock readings are given. */
  function Sequential(initial: nat, nows: seq<nat>): nat {
    if nows == [] then initial else NextEpoch(nows[|nows| - 1], Sequential(initial, nows[..|nows| - 1]))
  }

  function Nows(wins: seq<Win>): seq<nat> {
    seq(|wins|, i requires 0 <= i < |wins| => wins[i].now)
  }

  /** Each epoch is what the simple form returns at that place. */
  ghost predicate Linear(initial: nat, wins: seq<Win>) {
    forall i | 0 <= i < |wins| :: wins[i].epoch == Sequential(initial, Nows(wins[..i + 1]))
  }

  ghost predicate Bounded(s: State) {
    && s.cell <= U64_MAX
    && (forall t | t in s.locals :: s.locals[t].now <= U64_MAX)
    && (forall i | 0 <= i < |s.wins| :: s.wins[i].now <= U64_MAX)
  }

  lemma WinIsLinear(initial: nat, wins: seq<Win>, w: Win)
    requires Linear(initial, wins) && w.epoch == NextEpoch(w.now, Sequential(initial, Nows(wins)))
    ensures Linear(initial, wins + [w]) && Sequential(initial, Nows(wins + [w])) == w.epoch
  {
    var wins' := wins + [w];
    assert Nows(wins')[..|wins|] == Nows(wins);
    forall i | 0 <= i < |wins'|
      ensures wins'[i].epoch == Sequential(initial, Nows(wins'[..i + 1]))
    {
      if i < |wins| {
        assert wins'[..i + 1] == wins[..i + 1];
      } else {
        assert wins'[..i + 1] == wins';
      }
    }
  }

  /**
   Every interleaving, with stale loads and spurious failures, returns what the same calls return one
   after another in the order of their successful swaps.
   */
  lemma {:induction false} EpochsAreLinearizable(initial: nat, actions: seq<Action>)
    requires initial <= U64_MAX
    ensures var s := Run(initial, actions);
            Bounded(s) && Linear(initial, s.wins) && s.cell == Sequential(initial, Nows(s.wins))
  {
    if actions != [] {
      var init, a := actions[..|actions| - 1], actions[|actions| - 1];
      EpochsAreLinearizable(initial, init);
      var s := Run(initial, init);
      if Possible(s, a) && a.Swap? {
        WinIsLinear(initial, s.wins, Win(a.thread, s.locals[a.thread].now, NextEpoch(s.locals[a.thread].now, s.cell)));
      }
    }
  }

  // ---------------------------------------------------------------------------
  // What the epochs mean
  // ---------------------------------------------------------------------------

  lemma {:induction false} SequentialClimbs(initial: nat, nows: seq<nat>, k: nat)
    requires initial <= U64_MAX && k < |nows| && forall i | 0 <= i < |nows| :: nows[i] <= U64_MAX
    ensures var a, b := Sequential(initial, nows[..k]), Sequential(initial, nows);
            a <= b <= U64_MAX && b >= nows[|nows| - 1] && (a < U64_MAX ==> a < b)
  {
    var init := nows[..|nows| - 1];
    if k < |init| {
      SequentialClimbs(initial, init, k);
      assert init[..k] == nows[..k];
    } else {
      assert nows[..k] == init;
      SequentialIsBounded(initial, init);
    }
  }

  lemma {:induction false} SequentialIsBounded(initial: nat, nows: seq<nat>)
    requires initial <= U64_MAX && forall i | 0 <= i < |nows| :: nows[i] <= U64_MAX
    ensures Sequential(initial, nows) <= U64_MAX
  {
    if nows != [] {
      SequentialIsBounded(initial, nows[..|nows| - 1]);
    }
  }

  lemma WinClimbs(initial: nat, wins: seq<Win>, i: int, j: nat)
    requires initial <= U64_MAX && Linear(initial, wins) && -1 <= i < j < |wins|
    requires forall k | 0 <= k < |wins| :: wins[k].now <= U64_MAX
    ensures var a := if i < 0 then initial else wins[i].epoch;
            a <= wins[j].epoch <= U64_MAX && wins[j].epoch >= wins[j].now && (a < U64_MAX ==> a < wins[j].epoch)
  {
    var nows := Nows(wins[..j + 1]);
    assert nows[..i + 1] == Nows(wins[..i + 1]);
    SequentialClimbs(initial, nows, i + 1);
    if i < 0 {
      assert nows[..0] == [];
    }
  }

  lemma WinIsLeast(initial: nat, wins: seq<Win>, j: nat)
    requires Linear(initial, wins) && j < |wins|
    ensures wins[j].epoch == NextEpoch(wins[j].now, if j == 0 then initial else wins[j - 1].epoch)
  {
    var nows := Nows(wins[..j + 1]);
    assert nows[..j] == Nows(wins[..j]);
    assert |nows| == j + 1 && nows[j] == wins[j].now && wins[j].epoch == Sequential(initial, nows);
    assert wins[j].epoch == NextEpoch(wins[j].now, Sequential(initial, nows[..j]));
    if j == 0 {
      assert nows[..0] == [];
    } else {
      assert wins[..j - 1 + 1] == wins[..j];
      assert wins[j - 1].epoch == Sequential(initial, Nows(wins[..j]));
    }
  }

  /**
   In every interleaving: an epoch is at least its caller's clock reading and exceeds the initial value;
   it is no larger than that asks for, the clock reading or one above the epoch before it; and of two
   successes the later has the larger epoch exactly when the earlier one is below the 64-bit maximum, at
   which epochs repeat.
   */
  lemma EpochsAreFresh(initial: nat, actions: seq<Action>)
    requires initial < U64_MAX
    ensures var wins := Run(initial, actions).wins;
            && (forall j | 0 <= j < |wins| :: wins[j].now <= wins[j].epoch && initial < wins[j].epoch)
            && (forall j | 0 <= j < |wins| ::
                  var before := if j == 0 then initial else wins[j - 1].epoch;
                  wins[j].epoch == wins[j].now || wins[j].epoch == before + 1 || before == 0xFFFF_FFFF_FFFF_FFFF)
            && (forall i, j | 0 <= i < j < |wins| ::
                  (wins[i].epoch < wins[j].epoch <==> wins[i].epoch < U64_MAX)
                  && (wins[i].epoch == wins[j].epoch <==> wins[i].epoch == U64_MAX))
  {
    EpochsAreLinearizable(initial, actions);
    var wins := Run(initial, actions).wins;
    forall j | 0 <= j < |wins|
      ensures wins[j].now <= wins[j].epoch && initial < wins[j].epoch
    {
      WinClimbs(initial, wins, -1, j);
    }
    forall j | 0 <= j < |wins|
      ensures var before := if j == 0 then initial else wins[j - 1].epoch;
              wins[j].epoch == wins[j].now || wins[j].epoch == before + 1 || before == 0xFFFF_FFFF_FFFF_FFFF
    {
      WinIsLeast(initial, wins, j);
    }
    forall i, j | 0 <= i < j < |wins|
      ensures wins[i].epoch <= wins[j].epoch <= U64_MAX
      ensures wins[i].epoch < U64_MAX ==> wins[i].epoch < wins[j].epoch
    {
      WinClimbs(initial, wins, i, j);
    }
  }
}
