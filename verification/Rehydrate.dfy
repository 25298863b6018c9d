/**
 Repair of persisted trades from the venue's REST history (`rehydrate_trades_dir` in
 aetelier-io/src/rehydrate.rs): read what the files hold, walk the venue over the same id range, add
 what is missing.

 The rows of the files, in file-name order, and the fetcher are parameters. The fetcher may answer
 differently in every round, and may fail.
 */
module Rehydrate {
  import opened Wrappers

  /** `id` is the numeric id, None when the text is not a number. */
  datatype Trade = Trade(id: Option<nat>, ts: nat, payload: int)

  datatype Pos = Pos(id: nat, ts: nat)

  type Fetcher = (nat, Pos) -> Option<seq<Trade>>

  const MAX_FETCH_ROUNDS := 200

  datatype Report = Report(
    tradesRead: nat, range: Option<(nat, nat)>, recovered: nat, exhausted: bool, output: Option<seq<Trade>>)

  datatype Outcome = Failed | Done(report: Report)

  /** The state of the walk. */
  datatype Walk = Walk(pos: Pos, present: map<nat, Trade>, recovered: seq<Trade>)

  ghost function Ids(rows: seq<Trade>): set<nat> {
    set t | t in rows && t.id.Some? :: t.id.value
  }

  function Saturating(n: nat, k: nat): nat {
    if n >= k then n - k else 0
  }

  // ---------------------------------------------------------------------------
  // What the files hold
  // ---------------------------------------------------------------------------

  function FirstCopies(rows: seq<Trade>): map<nat, Trade> {
    if rows == [] then map[]
    else
      var m, t := FirstCopies(rows[..|rows| - 1]), rows[|rows| - 1];
      if t.id.Some? && t.id.value !in m then m[t.id.value := t] else m
  }

  lemma {:induction false} FirstCopiesMeans(rows: seq<Trade>)
    ensures FirstCopies(rows).Keys == Ids(rows)
    ensures forall i | 0 <= i < |rows| && rows[i].id.Some? && rows[i].id.value !in Ids(rows[..i]) ::
              rows[i].id.value in FirstCopies(rows) && FirstCopies(rows)[rows[i].id.value] == rows[i]
  {
    if rows != [] {
      var init, t := rows[..|rows| - 1], rows[|rows| - 1];
      FirstCopiesMeans(init);
      assert rows == init + [t];
      assert forall i | 0 <= i <= |init| :: rows[..i] == init[..i];
      assert init[..|init|] == init;
    }
  }

  method ReadPresent(rows: seq<Trade>) returns (present: map<nat, Trade>)
    ensures present == FirstCopies(rows)
  {
    present := map[];
    for i := 0 to |rows|
      invariant present == FirstCopies(rows[..i])
    {
      assert rows[..i + 1][..i] == rows[..i];
      var t := rows[i];
      if t.id.Some? && t.id.value !in present {
        present := present[t.id.value := t];
      }
    }
    assert rows[..|rows|] == rows;
  }

  // ---------------------------------------------------------------------------
  // One batch
  // ---------------------------------------------------------------------------

  function TakeRow(w: Walk, maxId: nat, t: Trade): Walk {
    if t.id.None? then w
    else
      var id := t.id.value;
      var pos := if id > w.pos.id then Pos(id, t.ts) else w.pos;
      if id > maxId || id in w.present then w.(pos := pos)
      else Walk(pos, w.present[id := t], w.recovered + [t])
  }

  function Take(w: Walk, maxId: nat, batch: seq<Trade>): Walk {
    if batch == [] then w else TakeRow(Take(w, maxId, batch[..|batch| - 1]), maxId, batch[|batch| - 1])
  }

  /** Every persisted first copy is kept; everything else present was recovered, once. */
  ghost predicate Extends(base: map<nat, Trade>, w: Walk, maxId: nat) {
    && (forall id | id in base :: id in w.present && w.present[id] == base[id])
    && w.present.Keys == base.Keys + Ids(w.recovered)
    && (forall t | t in w.recovered :: t.id.Some? && t.id.value <= maxId && t.id.value !in base
                                       && w.present[t.id.value] == t)
    && (forall i, j | 0 <= i < j < |w.recovered| :: w.recovered[i].id != w.recovered[j].id)
  }

  lemma TakeRowExtends(base: map<nat, Trade>, w: Walk, maxId: nat, t: Trade)
    requires Extends(base, w, maxId)
    ensures Extends(base, TakeRow(w, maxId, t), maxId)
  {
    var w' := TakeRow(w, maxId, t);
    if w'.recovered != w.recovered {
      assert Ids(w'.recovered) == Ids(w.recovered) + {t.id.value} by {
        assert t in w'.recovered;
        assert forall x | x in w.recovered :: x in w'.recovered;
      }
      forall i | 0 <= i < |w.recovered|
        ensures w.recovered[i].id != t.id
      {
        assert w.recovered[i] in w.recovered;
      }
    }
  }

  lemma {:induction false} TakeExtends(base: map<nat, Trade>, w: Walk, maxId: nat, batch: seq<Trade>)
    requires Extends(base, w, maxId)
    ensures Extends(base, Take(w, maxId, batch), maxId)
  {
    if batch != [] {
      TakeExtends(base, w, maxId, batch[..|batch| - 1]);
      TakeRowExtends(base, Take(w, maxId, batch[..|batch| - 1]), maxId, batch[|batch| - 1]);
    }
  }

  /** A batch brings in all its ids up to the limit and moves the position to the largest one. */
  lemma {:induction false} TakeMeans(w: Walk, maxId: nat, batch: seq<Trade>)
    ensures var w' := Take(w, maxId, batch);
            && w'.present.Keys == w.present.Keys + (set id | id in Ids(batch) && id <= maxId)
            && (forall id | id in Ids(batch) :: id <= w'.pos.id)
            && w'.pos.id >= w.pos.id && (w'.pos.id == w.pos.id || w'.pos.id in Ids(batch))
            && (w'.pos.id == w.pos.id ==> w'.pos == w.pos)
            && (w'.pos.id > w.pos.id ==> exists t :: t in batch && t.id == Some(w'.pos.id) && t.ts == w'.pos.ts)
  {
    if batch != [] {
      var init, t := batch[..|batch| - 1], batch[|batch| - 1];
      TakeMeans(w, maxId, init);
      assert batch == init + [t];
      assert Ids(batch) == Ids(init) + if t.id.Some? then {t.id.value} else {};
      var w1, w' := Take(w, maxId, init), Take(w, maxId, batch);
      if w'.pos.id > w.pos.id {
        if w'.pos == w1.pos {
          var u :| u in init && u.id == Some(w1.pos.id) && u.ts == w1.pos.ts;
          assert u in batch;
        } else {
          assert t in batch;
        }
      }
    }
  }

  method TakeBatch(w0: Walk, maxId: nat, batch: seq<Trade>) returns (w: Walk, advanced: bool)
    ensures w == Take(w0, maxId, batch)
    ensures advanced <==> w.pos.id > w0.pos.id
  {
    w, advanced := w0, false;
    for i := 0 to |batch|
      invariant w == Take(w0, maxId, batch[..i])
      invariant w.pos.id >= w0.pos.id
      invariant advanced <==> w.pos.id > w0.pos.id
    {
      assert batch[..i + 1][..i] == batch[..i];
      var t := batch[i];
      if t.id.None? {
        continue;
      }
      var id := t.id.value;
      if id > w.pos.id {
        w := w.(pos := Pos(id, t.ts));
        advanced := true;
      }
      if id > maxId {
        continue;
      }
      if id !in w.present {
        w := w.(present := w.present[id := t], recovered := w.recovered + [t]);
      }
    }
    assert batch[..|batch|] == batch;
  }

  // ---------------------------------------------------------------------------
  // What the venue promises, and what it gives
  // ---------------------------------------------------------------------------

  /** No served id between the position and an id of the batch is left out. */
  ghost predicate SkipsNothing(served: iset<nat>, pos: Pos, batch: seq<Trade>) {
    forall x, y | x in served && pos.id < x <= y && y in Ids(batch) :: x in Ids(batch)
  }

  /** A batch without a newer id means no newer id is served. */
  ghost predicate StopsOnlyAtTheEnd(served: iset<nat>, pos: Pos, batch: seq<Trade>) {
    (forall y | y in Ids(batch) :: y <= pos.id) ==> forall x | x in served :: x <= pos.id
  }

  ghost predicate Lawful(served: iset<nat>, fetch: Fetcher) {
    forall round, pos | fetch(round, pos).Some? ::
      SkipsNothing(served, pos, fetch(round, pos).value) && StopsOnlyAtTheEnd(served, pos, fetch(round, pos).value)
  }

  ghost predicate Covered(served: iset<nat>, present: map<nat, Trade>, lo: nat, hi: nat) {
    forall x | x in served && lo <= x <= hi :: x in present
  }

  function Min(a: nat, b: nat): nat {
    if a <= b then a else b
  }

  lemma TakeCovers(served: iset<nat>, w: Walk, lo: nat, maxId: nat, batch: seq<Trade>)
    requires Covered(served, w.present, lo, Min(w.pos.id, maxId)) && SkipsNothing(served, w.pos, batch)
    ensures var w' := Take(w, maxId, batch); Covered(served, w'.present, lo, Min(w'.pos.id, maxId))
  {
    TakeMeans(w, maxId, batch);
    var w' := Take(w, maxId, batch);
    forall x | x in served && lo <= x <= Min(w'.pos.id, maxId)
      ensures x in w'.present
    {
      if x > w.pos.id {
        assert w'.pos.id in Ids(batch);
        assert x in Ids(batch);
      }
    }
  }

  // ---------------------------------------------------------------------------
  // The walk
  // ---------------------------------------------------------------------------

  /** Where a walk ended, and how. */
  datatype Ended = Ended(walk: Walk, failed: bool, exhausted: bool, rounds: nat)

  /** The walk from a given round on. */
  function Rounds(fetch: Fetcher, maxId: nat, w: Walk, round: nat): Ended
    decreases MAX_FETCH_ROUNDS - round
  {
    if round >= MAX_FETCH_ROUNDS || w.pos.id >= maxId then Ended(w, false, false, round)
    else
      var answer := fetch(round, w.pos);
      if answer.None? then Ended(w, true, false, round)
      else if answer.value == [] then Ended(w, false, true, round)
      else
        var w' := Take(w, maxId, answer.value);
        if w'.pos.id > w.pos.id then Rounds(fetch, maxId, w', round + 1)
        else Ended(w', false, w'.pos.id < maxId, round)
  }

  method WalkVenue(base: map<nat, Trade>, start: Pos, maxId: nat, fetch: Fetcher) returns (end: Ended)
    ensures end == Rounds(fetch, maxId, Walk(start, base, []), 0)
  {
    var w := Walk(start, base, []);
    for round := 0 to MAX_FETCH_ROUNDS
      invariant Rounds(fetch, maxId, Walk(start, base, []), 0) == Rounds(fetch, maxId, w, round)
    {
      if w.pos.id >= maxId {
        return Ended(w, false, false, round);
      }
      var answer := fetch(round, w.pos);
      if answer.None? {
        return Ended(w, true, false, round);
      }
      var batch := answer.value;
      if batch == [] {
        return Ended(w, false, w.pos.id < maxId, round);
      }
      var next, advanced := TakeBatch(w, maxId, batch);
      w := next;
      if !advanced {
        return Ended(w, false, w.pos.id < maxId, round);
      }
    }
    end := Ended(w, false, false, MAX_FETCH_ROUNDS);
  }

  /** Persisted rows stay and recovered ones are new, whatever the fetcher does. */
  lemma {:induction false} WalkExtends(base: map<nat, Trade>, fetch: Fetcher, maxId: nat, w: Walk, round: nat)
    requires Extends(base, w, maxId)
    ensures Extends(base, Rounds(fetch, maxId, w, round).walk, maxId)
    decreases MAX_FETCH_ROUNDS - round
  {
    if round < MAX_FETCH_ROUNDS && w.pos.id < maxId && fetch(round, w.pos).Some? {
      TakeExtends(base, w, maxId, fetch(round, w.pos).value);
      WalkExtends(base, fetch, maxId, Take(w, maxId, fetch(round, w.pos).value), round + 1);
    }
  }

  /** How a walk can end: failed, at the end of the range, exhausted before it, or out of rounds. */
  lemma {:induction false} WalkEnds(fetch: Fetcher, maxId: nat, w: Walk, round: nat)
    requires round <= MAX_FETCH_ROUNDS
    ensures var end := Rounds(fetch, maxId, w, round);
            && round <= end.rounds <= MAX_FETCH_ROUNDS && end.walk.pos.id - w.pos.id >= end.rounds - round
            && (end.failed ==> exists pos: Pos :: fetch(end.rounds, pos).None?)
            && (end.exhausted ==> end.walk.pos.id < maxId && end.rounds < MAX_FETCH_ROUNDS)
            && (!end.failed && !end.exhausted && end.walk.pos.id < maxId ==> end.rounds == MAX_FETCH_ROUNDS)
    decreases MAX_FETCH_ROUNDS - round
  {
    if round < MAX_FETCH_ROUNDS && w.pos.id < maxId && fetch(round, w.pos).Some? {
      TakeMeans(w, maxId, fetch(round, w.pos).value);
      var w' := Take(w, maxId, fetch(round, w.pos).value);
      if w'.pos.id > w.pos.id {
        WalkEnds(fetch, maxId, w', round + 1);
      }
    }
  }

  /** Up to the position nothing served is missing; exhaustion means nothing more is served. */
  lemma {:induction false} WalkCovers(served: iset<nat>, fetch: Fetcher, lo: nat, maxId: nat, w: Walk, round: nat)
    requires Lawful(served, fetch) && Covered(served, w.present, lo, Min(w.pos.id, maxId))
    ensures var end := Rounds(fetch, maxId, w, round);
            && Covered(served, end.walk.present, lo, Min(end.walk.pos.id, maxId))
            && (end.exhausted ==> forall x | x in served :: x <= end.walk.pos.id)
    decreases MAX_FETCH_ROUNDS - round
  {
    if round < MAX_FETCH_ROUNDS && w.pos.id < maxId && fetch(round, w.pos).Some? {
      var batch := fetch(round, w.pos).value;
      assert SkipsNothing(served, w.pos, batch) && StopsOnlyAtTheEnd(served, w.pos, batch);
      TakeCovers(served, w, lo, maxId, batch);
      TakeMeans(w, maxId, batch);
      WalkCovers(served, fetch, lo, maxId, Take(w, maxId, batch), round + 1);
    }
  }

  // ---------------------------------------------------------------------------
  // When 200 rounds are enough
  // ---------------------------------------------------------------------------

  ghost predicate Serves(served: iset<nat>, x: nat) {
    x in served
  }

  /** The served ids above a and up to b. */
  ghost function Between(served: iset<nat>, a: nat, b: nat): set<nat> {
    set x: nat | a < x <= b && Serves(served, x)
  }

  /** The fetcher answers, and only with ids the venue serves. */
  ghost predicate OnlyServed(served: iset<nat>, fetch: Fetcher) {
    forall round, pos :: fetch(round, pos).Some? && forall y | y in Ids(fetch(round, pos).value) :: y in served
  }

  lemma BetweenGrows(served: iset<nat>, a: nat, b: nat, c: nat)
    requires b < c && c in served && a < c
    ensures |Between(served, a, c)| >= |Between(served, a, b)| + 1
  {
    SubsetSize(Between(served, a, b) + {c}, Between(served, a, c));
  }

  lemma {:induction false} SubsetSize(a: set<nat>, b: set<nat>)
    requires a <= b
    ensures |a| <= |b|
  {
    if a != {} {
      var x :| x in a;
      SubsetSize(a - {x}, b - {x});
    }
  }

  /** Each round passes at least one served id. */
  lemma {:induction false} RoundsPassIds(served: iset<nat>, fetch: Fetcher, from: nat, maxId: nat, w: Walk, round: nat)
    requires OnlyServed(served, fetch) && from <= w.pos.id && |Between(served, from, w.pos.id)| >= round
    ensures var end := Rounds(fetch, maxId, w, round); |Between(served, from, end.walk.pos.id)| >= end.rounds
    decreases MAX_FETCH_ROUNDS - round
  {
    if round < MAX_FETCH_ROUNDS && w.pos.id < maxId {
      var batch := fetch(round, w.pos).value;
      TakeMeans(w, maxId, batch);
      var w' := Take(w, maxId, batch);
      if w'.pos.id > w.pos.id {
        BetweenGrows(served, from, w.pos.id, w'.pos.id);
        RoundsPassIds(served, fetch, from, maxId, w', round + 1);
      }
    }
  }

  /** Every served id the files lack is among the first 200 served above the start. */
  ghost predicate WithinReach(served: iset<nat>, base: map<nat, Trade>, start: nat, lo: nat, maxId: nat) {
    forall x | x in served && lo <= x <= maxId && x !in base :: |Between(served, start, x)| <= 200
  }

  lemma ReachIsEnough(served: iset<nat>, fetch: Fetcher, base: map<nat, Trade>, start: Pos, lo: nat, maxId: nat)
    requires lo in base && start.id == Saturating(lo, 1) && Lawful(served, fetch) && OnlyServed(served, fetch)
    requires WithinReach(served, base, start.id, lo, maxId)
    ensures Covered(served, Rounds(fetch, maxId, Walk(start, base, []), 0).walk.present, lo, maxId)
  {
    var w := Walk(start, base, []);
    StartIsSound(served, base, start, lo, maxId);
    WalkEnds(fetch, maxId, w, 0);
    WalkCovers(served, fetch, lo, maxId, w, 0);
    WalkExtends(base, fetch, maxId, w, 0);
    RoundsPassIds(served, fetch, start.id, maxId, w, 0);
    NeverFails(served, fetch, maxId, w, 0);
    EndCovers(served, base, start.id, lo, maxId, Rounds(fetch, maxId, w, 0));
  }

  lemma StartIsSound(served: iset<nat>, base: map<nat, Trade>, start: Pos, lo: nat, maxId: nat)
    requires lo in base && start.id == Saturating(lo, 1)
    ensures Extends(base, Walk(start, base, []), maxId) && Covered(served, base, lo, Min(start.id, maxId))
  {}

  lemma EndCovers(served: iset<nat>, base: map<nat, Trade>, start: nat, lo: nat, maxId: nat, end: Ended)
    requires Covered(served, end.walk.present, lo, Min(end.walk.pos.id, maxId)) && base.Keys <= end.walk.present.Keys
    requires |Between(served, start, end.walk.pos.id)| >= end.rounds && start <= lo
    requires end.exhausted ==> forall x | x in served :: x <= end.walk.pos.id
    requires !end.exhausted && end.walk.pos.id < maxId ==> end.rounds == MAX_FETCH_ROUNDS
    requires WithinReach(served, base, start, lo, maxId)
    ensures Covered(served, end.walk.present, lo, maxId)
  {
    forall x | x in served && lo <= x <= maxId && x !in base
      ensures x <= end.walk.pos.id
    {
      if x > end.walk.pos.id {
        if start < x {
          BetweenGrows(served, start, end.walk.pos.id, x);
        }
      }
    }
  }

  lemma {:induction false} NeverFails(served: iset<nat>, fetch: Fetcher, maxId: nat, w: Walk, round: nat)
    requires OnlyServed(served, fetch)
    ensures !Rounds(fetch, maxId, w, round).failed
    decreases MAX_FETCH_ROUNDS - round
  {
    if round < MAX_FETCH_ROUNDS && w.pos.id < maxId {
      assert fetch(round, w.pos).Some?;
      NeverFails(served, fetch, maxId, Take(w, maxId, fetch(round, w.pos).value), round + 1);
    }
  }

  // A venue that gives one id a page.

  ghost predicate IsNext(served: iset<nat>, a: nat, x: nat) {
    x in served && x > a && forall y | y in served && y > a :: x <= y
  }

  lemma {:induction false} NextExists(served: iset<nat>, a: nat, x: nat)
    requires x in served && x > a
    ensures exists y :: IsNext(served, a, y)
    decreases x
  {
    if y :| y in served && a < y < x {
      NextExists(served, a, y);
    } else {
      assert IsNext(served, a, x);
    }
  }

  ghost function NextPage(served: iset<nat>, a: nat): seq<Trade> {
    if y :| IsNext(served, a, y) then [Trade(Some(y), 0, 0)] else []
  }

  ghost function OneByOne(served: iset<nat>): Fetcher {
    (round: nat, pos: Pos) => Some(NextPage(served, pos.id))
  }

  lemma NextPageMeans(served: iset<nat>, a: nat)
    ensures (exists y :: IsNext(served, a, y)) ==>
              exists y: nat :: IsNext(served, a, y)
                             && NextPage(served, a) == [Trade(Some(y), 0, 0)] && Ids(NextPage(served, a)) == {y}
    ensures (forall y :: !IsNext(served, a, y)) ==> NextPage(served, a) == []
  {
    if exists y :: IsNext(served, a, y) {
      var page := NextPage(served, a);
      assert page != [] && page[0] in page;
    }
  }

  lemma OneByOneIsLawful(served: iset<nat>)
    ensures Lawful(served, OneByOne(served)) && OnlyServed(served, OneByOne(served))
  {
    var fetch := OneByOne(served);
    forall round: nat, pos: Pos
      ensures SkipsNothing(served, pos, fetch(round, pos).value)
      ensures StopsOnlyAtTheEnd(served, pos, fetch(round, pos).value)
      ensures forall y | y in Ids(fetch(round, pos).value) :: y in served
    {
      NextPageMeans(served, pos.id);
      forall x | x in served && x > pos.id
        ensures exists y :: IsNext(served, pos.id, y)
      {
        NextExists(served, pos.id, x);
      }
    }
  }

  /** One page moves to the next served id and adds at most that. */
  lemma OnePage(served: iset<nat>, maxId: nat, w: Walk, x: nat)
    requires x in served && x > w.pos.id
    ensures var page := NextPage(served, w.pos.id); var w' := Take(w, maxId, page);
            && page != [] && IsNext(served, w.pos.id, w'.pos.id)
            && w'.present.Keys <= w.present.Keys + {w'.pos.id}
  {
    NextExists(served, w.pos.id, x);
    NextPageMeans(served, w.pos.id);
    TakeMeans(w, maxId, NextPage(served, w.pos.id));
  }

  lemma NextCounts(served: iset<nat>, from: nat, a: nat, x: nat)
    requires from <= a && IsNext(served, a, x)
    ensures |Between(served, from, x)| == |Between(served, from, a)| + 1
  {
    assert Between(served, from, x) == Between(served, from, a) + {x};
  }

  /** The walk runs out of rounds before an id with more than 200 served ids up to it. */
  lemma {:induction false} OneByOneMisses(served: iset<nat>, from: nat, maxId: nat, w: Walk, round: nat, x: nat)
    requires round <= MAX_FETCH_ROUNDS && from <= w.pos.id && |Between(served, from, w.pos.id)| == round
    requires x in served && x <= maxId && x !in w.present && |Between(served, from, x)| > MAX_FETCH_ROUNDS
    ensures var end := Rounds(OneByOne(served), maxId, w, round);
            !end.failed && !end.exhausted && end.rounds == MAX_FETCH_ROUNDS && x !in end.walk.present
    decreases MAX_FETCH_ROUNDS - round
  {
    assert w.pos.id < x by {
      if x <= w.pos.id {
        SubsetSize(Between(served, from, x), Between(served, from, w.pos.id));
      }
    }
    if round < MAX_FETCH_ROUNDS {
      OnePage(served, maxId, w, x);
      var w' := Take(w, maxId, NextPage(served, w.pos.id));
      NextCounts(served, from, w.pos.id, w'.pos.id);
      assert w'.pos.id != x;
      OneByOneMisses(served, from, maxId, w', round + 1, x);
    }
  }

  /**
   When 200 rounds are enough. A walk covers the whole range whatever the pages of a lawful venue that
   never fails, if and only if every served id the files lack is among the first 200 served above the
   start: known before the call from the venue's ids and the files.
   */
  lemma CoverageIff(served: iset<nat>, base: map<nat, Trade>, start: Pos, lo: nat, maxId: nat)
    requires lo in base && start.id == Saturating(lo, 1)
    ensures (forall fetch: Fetcher | Lawful(served, fetch) && OnlyServed(served, fetch) ::
               Covered(served, Rounds(fetch, maxId, Walk(start, base, []), 0).walk.present, lo, maxId))
            <==> WithinReach(served, base, start.id, lo, maxId)
  {
    if WithinReach(served, base, start.id, lo, maxId) {
      forall fetch: Fetcher | Lawful(served, fetch) && OnlyServed(served, fetch)
        ensures Covered(served, Rounds(fetch, maxId, Walk(start, base, []), 0).walk.present, lo, maxId)
      {
        ReachIsEnough(served, fetch, base, start, lo, maxId);
      }
    } else {
      var x :| x in served && lo <= x <= maxId && x !in base && |Between(served, start.id, x)| > MAX_FETCH_ROUNDS;
      OneByOneIsLawful(served);
      assert Between(served, start.id, start.id) == {};
      OneByOneMisses(served, start.id, maxId, Walk(start, base, []), 0, x);
    }
  }

  ghost const EVERY_ID: iset<nat> := iset x: nat | true

  lemma {:induction false} AllServed(a: nat, n: nat)
    ensures |Between(EVERY_ID, a, a + n)| == n
  {
    var all := EVERY_ID;
    if n == 0 {
      assert Between(all, a, a) == {};
    } else {
      AllServed(a, n - 1);
      NextCounts(all, a, a + n - 1, a + n);
    }
  }

  // ---------------------------------------------------------------------------
  // The whole repair
  // ---------------------------------------------------------------------------

  method LeastOf(s: set<nat>) returns (m: nat)
    requires s != {}
    ensures m in s && forall x | x in s :: m <= x
  {
    m :| m in s;
    var rest := s - {m};
    while rest != {}
      invariant rest <= s && m in s && forall x | x in s && x !in rest :: m <= x
      decreases rest
    {
      var x :| x in rest;
      rest := rest - {x};
      m := Min(m, x);
    }
  }

  method GreatestOf(s: set<nat>) returns (m: nat)
    requires s != {}
    ensures m in s && forall x | x in s :: x <= m
  {
    m :| m in s;
    var rest := s - {m};
    while rest != {}
      invariant rest <= s && m in s && forall x | x in s && x !in rest :: x <= m
      decreases rest
    {
      var x :| x in rest;
      rest := rest - {x};
      m := if x > m then x else m;
    }
  }

  /** Rows keyed by their own ids. */
  ghost predicate Keyed(m: map<nat, Trade>) {
    forall id | id in m :: m[id].id == Some(id)
  }

  /** The rows are the values of `m` in ascending id order, each once. */
  ghost predicate Ordered(m: map<nat, Trade>, rows: seq<Trade>) {
    && (forall i | 0 <= i < |rows| :: rows[i].id.Some? && rows[i].id.value in m && m[rows[i].id.value] == rows[i])
    && (forall i, j | 0 <= i < j < |rows| :: rows[i].id.value < rows[j].id.value)
    && Ids(rows) == m.Keys
  }

  method IntoValues(m: map<nat, Trade>) returns (rows: seq<Trade>)
    requires Keyed(m)
    ensures Ordered(m, rows)
  {
    rows := [];
    var rest := m.Keys;
    while rest != {}
      invariant rest <= m.Keys && Ids(rows) == m.Keys - rest
      invariant forall i | 0 <= i < |rows| ::
                        rows[i].id.Some? && rows[i].id.value in m && m[rows[i].id.value] == rows[i]
      invariant forall i, j | 0 <= i < j < |rows| :: rows[i].id.value < rows[j].id.value
      invariant forall i, x | 0 <= i < |rows| && x in rest :: rows[i].id.value < x
      decreases rest
    {
      var id := LeastOf(rest);
      IdsSnoc(rows, m[id]);
      rest := rest - {id};
      rows := rows + [m[id]];
    }
  }

  lemma IdsSnoc(rows: seq<Trade>, t: Trade)
    ensures Ids(rows + [t]) == Ids(rows) + if t.id.Some? then {t.id.value} else {}
  {
    assert forall x :: x in rows + [t] <==> x in rows || x == t;
  }

  lemma {:induction false} FirstCopiesKeyed(rows: seq<Trade>)
    ensures Keyed(FirstCopies(rows))
  {
    if rows != [] {
      FirstCopiesKeyed(rows[..|rows| - 1]);
    }
  }

  lemma ExtendsKeyed(base: map<nat, Trade>, w: Walk, maxId: nat)
    requires Extends(base, w, maxId) && Keyed(base)
    ensures Keyed(w.present)
  {
    forall id | id in w.present
      ensures w.present[id].id == Some(id)
    {
      if id !in base {
        assert id in Ids(w.recovered);
      }
    }
  }

  /** One id and one second before the first row, or zero. */
  ghost function StartOf(lo: nat, ts: nat): Pos {
    Pos(if lo >= 1 then lo - 1 else 0, if ts >= 1_000_000 then ts - 1_000_000 else 0)
  }

  /** The walk the repair makes over the range it found. */
  ghost function TheWalk(rows: seq<Trade>, fetch: Fetcher, lo: nat, hi: nat): Ended
    requires lo in FirstCopies(rows)
  {
    var base := FirstCopies(rows);
    Rounds(fetch, hi, Walk(StartOf(lo, base[lo].ts), base, []), 0)
  }

  /**
   The input: files that hold ids 1 and n only, n > 201, and a venue that serves every id, one a page.
   The walk of the repair ends with `exhausted` false, as a complete one does, and id 201 is missing.
   */
  lemma CappedWalkLooksComplete(n: nat, first: Trade, last: Trade)
    requires n > 201 && first.id == Some(1) && last.id == Some(n)
    ensures var rows := [first, last];
            && Lawful(EVERY_ID, OneByOne(EVERY_ID)) && OnlyServed(EVERY_ID, OneByOne(EVERY_ID))
            && FirstCopies(rows).Keys == {1, n}
            && var end := TheWalk(rows, OneByOne(EVERY_ID), 1, n);
               !end.failed && !end.exhausted && 201 in EVERY_ID && 1 <= 201 <= n && 201 !in end.walk.present
  {
    var rows := [first, last];
    FirstCopiesMeans(rows);
    assert Ids(rows) == {1, n} by {
      assert rows[0] in rows && rows[1] in rows;
    }
    OneByOneIsLawful(EVERY_ID);
    AllServed(0, 201);
    assert Between(EVERY_ID, 0, 0) == {};
    var base := FirstCopies(rows);
    var start := Pos(Saturating(1, 1), Saturating(base[1].ts, 1_000_000));
    OneByOneMisses(EVERY_ID, 0, n, Walk(start, base, []), 0, 201);
  }

  /** A lawful venue that answers and whose missing ids 200 rounds are sure to reach. */
  ghost predicate PromptVenue(served: iset<nat>, fetch: Fetcher, base: map<nat, Trade>, lo: nat, hi: nat) {
    && Lawful(served, fetch) && OnlyServed(served, fetch)
    && WithinReach(served, base, if lo >= 1 then lo - 1 else 0, lo, hi)
  }

  /** What the repair promises of the walk it made. */
  ghost predicate Repaired(rows: seq<Trade>, served: iset<nat>, fetch: Fetcher, r: Report) {
    var base := FirstCopies(rows);
    && r.range.Some? && r.tradesRead == |rows|
    && var (lo, hi) := r.range.value;
       && lo in base && hi in base && (forall id | id in base :: lo <= id <= hi)
       && var end := TheWalk(rows, fetch, lo, hi); var w := end.walk;
          && Extends(base, w, hi)
          && r.recovered == |w.recovered|
          && (r.output.Some? <==> w.recovered != [])
          && (r.output.Some? ==> Ordered(w.present, r.output.value))
          && r.exhausted == end.exhausted && (r.exhausted ==> w.pos.id < hi)
          && (Lawful(served, fetch) ==>
                && Covered(served, w.present, lo, Min(w.pos.id, hi))
                && (end.rounds < MAX_FETCH_ROUNDS ==> Covered(served, w.present, lo, hi))
                && (r.exhausted ==> forall x | x in served :: x <= w.pos.id))
          && (PromptVenue(served, fetch, base, lo, hi) ==> Covered(served, w.present, lo, hi))
  }

  lemma WalkIsRepair(rows: seq<Trade>, served: iset<nat>, fetch: Fetcher, lo: nat, hi: nat)
    requires var base := FirstCopies(rows); lo in base && !TheWalk(rows, fetch, lo, hi).failed
    ensures var base := FirstCopies(rows); var end := TheWalk(rows, fetch, lo, hi); var w := end.walk;
            && Extends(base, w, hi) && (end.exhausted ==> w.pos.id < hi)
            && (Lawful(served, fetch) ==>
                  && Covered(served, w.present, lo, Min(w.pos.id, hi))
                  && (end.rounds < MAX_FETCH_ROUNDS ==> Covered(served, w.present, lo, hi))
                  && (end.exhausted ==> forall x | x in served :: x <= w.pos.id))
            && (PromptVenue(served, fetch, base, lo, hi) ==> Covered(served, w.present, lo, hi))
  {
    var base := FirstCopies(rows);
    var start := Pos(Saturating(lo, 1), Saturating(base[lo].ts, 1_000_000));
    var w := Walk(start, base, []);
    StartIsSound(served, base, start, lo, hi);
    WalkExtends(base, fetch, hi, w, 0);
    WalkEnds(fetch, hi, w, 0);
    if Lawful(served, fetch) {
      WalkCovers(served, fetch, lo, hi, w, 0);
      if PromptVenue(served, fetch, base, lo, hi) {
        ReachIsEnough(served, fetch, base, start, lo, hi);
      }
    }
  }

  lemma RepairIsSound(
    rows: seq<Trade>, served: iset<nat>, fetch: Fetcher, lo: nat, hi: nat, output: Option<seq<Trade>>)
    requires var base := FirstCopies(rows); lo in base && hi in base && forall id | id in base :: lo <= id <= hi
    requires var end := TheWalk(rows, fetch, lo, hi);
             && !end.failed && (output.Some? <==> end.walk.recovered != [])
             && (output.Some? ==> Ordered(end.walk.present, output.value))
    ensures var end := TheWalk(rows, fetch, lo, hi);
            Repaired(rows, served, fetch,
                     Report(|rows|, Some((lo, hi)), |end.walk.recovered|, end.exhausted, output))
  {
    WalkIsRepair(rows, served, fetch, lo, hi);
  }

  /** The whole repair; `served` is what the venue serves, in the promise only. */
  method RehydrateTrades(rows: seq<Trade>, fetch: Fetcher, ghost served: iset<nat>) returns (outcome: Outcome)
    ensures outcome.Failed? ==> exists round, pos: Pos :: fetch(round, pos).None?
    ensures outcome.Done? && Ids(rows) == {} ==> outcome.report == Report(|rows|, None, 0, false, None)
    ensures outcome.Done? && Ids(rows) != {} ==> Repaired(rows, served, fetch, outcome.report)
  {
    var present := ReadPresent(rows);
    FirstCopiesMeans(rows);
    FirstCopiesKeyed(rows);
    if present == map[] {
      return Done(Report(|rows|, None, 0, false, None));
    }
    var minId := LeastOf(present.Keys);
    var maxId := GreatestOf(present.Keys);
    var start := Pos(Saturating(minId, 1), Saturating(present[minId].ts, 1_000_000));
    var end := WalkVenue(present, start, maxId, fetch);
    WalkEnds(fetch, maxId, Walk(start, present, []), 0);
    if end.failed {
      return Failed;
    }
    assert end == TheWalk(rows, fetch, minId, maxId);
    var output := None;
    if end.walk.recovered != [] {
      WalkIsRepair(rows, served, fetch, minId, maxId);
      ExtendsKeyed(present, end.walk, maxId);
      var merged := IntoValues(end.walk.present);
      output := Some(merged);
    }
    RepairIsSound(rows, served, fetch, minId, maxId, output);
    outcome := Done(Report(|rows|, Some((minId, maxId)), |end.walk.recovered|, end.exhausted, output));
  }
}
