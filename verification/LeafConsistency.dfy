/**
 Crash consistency of a leaf: what a reader can rely on after any sequence of flushes, stops and
 restarts.
 */
module LeafConsistency {
  import opened Wrappers
  import opened Naming
  import opened LeafIndex

  ghost function AllLines(ix: Index): seq<Line> {
    ix.lines + [ix.open]
  }

  ghost predicate Holds(s: Leaf, p: Piece) {
    s.index.Some? && exists line | line in AllLines(s.index.value) :: p in line
  }

  /** The entry describes a complete file that is there now. */
  ghost predicate TrueEntry(hash: Bytes -> Digest, s: Leaf, e: Entry) {
    && e.filename in s.files
    && s.files[e.filename].Complete?
    && Describes(hash, e, s.files[e.filename].batch)
    && EndsWith(e.filename, ".parquet")
  }

  /** The entry's hash is of the file's bytes, and its row count, times and schema are the batch's. */
  ghost predicate Describes(hash: Bytes -> Digest, e: Entry, b: Batch) {
    e.sha256 == hash(b.bytes) && e.rows == b.rows && e.tMin == b.tMin && e.tMax == b.tMax && e.schema == b.schema
  }

  ghost predicate InFlight(s: Leaf, n: Name) {
    (s.phase.Renamed? || s.phase.Durable?) && s.phase.target == n
  }

  /** Different lines speak of different files. */
  ghost predicate Separate(lines: seq<Line>) {
    forall i, j, p, q | 0 <= i < j < |lines| && p in lines[i] && q in lines[j] :: p.entry.filename != q.entry.filename
  }

  ghost predicate Closed(line: Line) {
    line != [] && line[|line| - 1].Whole?
  }

  ghost predicate IndexOk(ix: Index) {
    Separate(AllLines(ix)) && forall line | line in ix.lines :: Closed(line)
  }

  ghost predicate PhaseOk(s: Leaf) {
    match s.phase
    case Idle => true
    case Writing(b) => EndsWith(b.name, PARQUET)
    case Staged(b) => EndsWith(b.name, PARQUET)
    case Renamed(b, t) => t in s.files && s.files[t] == Complete(b) && EndsWith(t, PARQUET)
    case Durable(b, t) => t in s.files && s.files[t] == Complete(b) && EndsWith(t, PARQUET)
  }

  ghost predicate Inv(hash: Bytes -> Digest, s: Leaf) {
    && (forall n | n in s.files :: s.files[n].Complete?)
    && (forall p | Holds(s, p) :: TrueEntry(hash, s, p.entry) && !InFlight(s, p.entry.filename))
    && (s.index.Some? ==> IndexOk(s.index.value))
    && NewIndexOk(s)
    && PhaseOk(s)
  }

  /** At most one piece was ever written. */
  ghost predicate Small(ix: Index) {
    (ix.lines == [] && |ix.open| <= 1) || (|ix.lines| == 1 && |ix.lines[0]| == 1 && ix.open == [])
  }

  /** An index the directory was not synced for has seen one append at most. */
  ghost predicate NewIndexOk(s: Leaf) {
    s.index.Some? && !s.synced ==> Small(s.index.value) && !s.phase.Durable?
  }

  // ---------------------------------------------------------------------------
  // Every step keeps it
  // ---------------------------------------------------------------------------

  lemma ChosenIsParquet(dir: set<Name>, name: Name, target: Name)
    requires EndsWith(name, PARQUET) && Chosen(dir, name, target)
    ensures EndsWith(target, PARQUET)
  {
    if target != name {
      var n :| 1 <= n <= |dir| + 1 && FirstFree(dir, Stem(name), n, target);
      EndsInParquet(Stem(name), n);
    }
  }

  /** The index after an append: one more piece on the open line, which may then be closed. */
  ghost predicate Grows(ix: Index, ix': Index, p: Piece) {
    || AllLines(ix') == ix.lines + [ix.open + [p]]
    || (p.Whole? && AllLines(ix') == ix.lines + [ix.open + [p], []] && ix'.lines == ix.lines + [ix.open + [p]])
  }

  lemma GrowthKeepsIndex(ix: Index, ix': Index, p: Piece)
    requires IndexOk(ix) && Grows(ix, ix', p)
    requires forall line, q | line in AllLines(ix) && q in line :: q.entry.filename != p.entry.filename
    ensures IndexOk(ix')
    ensures forall line, q | line in AllLines(ix') && q in line :: q == p || exists l | l in AllLines(ix) :: q in l
  {
    var before, after := AllLines(ix), AllLines(ix');
    GrowthAt(ix, ix', p);
    GrowthSeparates(before, after, |ix.lines|, p);
    forall line, q | line in after && q in line
      ensures q == p || exists l | l in before :: q in l
    {
      var i :| 0 <= i < |after| && after[i] == line;
      if q != p {
        assert q in before[i] && before[i] in before;
      }
    }
    if ix'.lines == ix.lines + [ix.open + [p]] {
      assert Closed(ix.open + [p]);
    } else {
      assert ix'.lines == after[..|after| - 1] == ix.lines;
    }
  }

  /** Line k gained a piece, the lines before it are the same, and behind it there is at most an empty one. */
  ghost predicate Grown(before: seq<Line>, after: seq<Line>, k: nat, p: Piece) {
    && |before| == k + 1 && k + 1 <= |after| <= k + 2
    && (forall i | 0 <= i < k :: after[i] == before[i])
    && after[k] == before[k] + [p] && (|after| == k + 2 ==> after[k + 1] == [])
  }

  lemma GrowthAt(ix: Index, ix': Index, p: Piece)
    requires Grows(ix, ix', p)
    ensures Grown(AllLines(ix), AllLines(ix'), |ix.lines|, p)
  {}

  lemma GrowthSeparates(before: seq<Line>, after: seq<Line>, k: nat, p: Piece)
    requires Separate(before) && Grown(before, after, k, p)
    requires forall line, q | line in before && q in line :: q.entry.filename != p.entry.filename
    ensures Separate(after)
  {
    forall i: int, j: int, a: Piece, b: Piece | 0 <= i < j < |after| && a in after[i] && b in after[j]
      ensures a.entry.filename != b.entry.filename
    {
      assert a in before[i] && before[i] in before;
      if b != p {
        assert b in before[j];
      }
    }
  }

  lemma FirstAppendIsSmall(s: Leaf, ix': Index, p: Piece)
    requires Grows(Opened(s.index), ix', p)
    ensures s.index.None? ==> Small(ix')
  {
    if s.index.None? {
      var all := AllLines(ix');
      assert [] + [p] == [p];
      assert all == [[p]] || all == [[p], []];
      assert ix'.lines == all[..|all| - 1] && ix'.open == all[|all| - 1];
    }
  }

  lemma AppendKeepsInv(hash: Bytes -> Digest, s: Leaf, ix': Index, p: Piece)
    requires Inv(hash, s) && s.phase.Durable? && p.entry == EntryFor(hash, s.phase.target, s.phase.batch)
    requires Grows(Opened(s.index), ix', p)
    ensures Inv(hash, s.(index := Some(ix'), synced := s.index.Some? && s.synced, phase := Idle))
  {
    var ix := Opened(s.index);
    var s' := s.(index := Some(ix'), synced := s.index.Some? && s.synced, phase := Idle);
    FirstAppendIsSmall(s, ix', p);
    forall line, q | line in AllLines(ix) && q in line
      ensures q.entry.filename != p.entry.filename
    {
      assert Holds(s, q);
    }
    GrowthKeepsIndex(ix, ix', p);
    forall q | Holds(s', q)
      ensures TrueEntry(hash, s', q.entry)
    {
      if q != p {
        var line :| line in AllLines(ix') && q in line;
        assert exists l | l in AllLines(ix) :: q in l;
        assert Holds(s, q);
      }
    }
  }

  /** Files that were not in flight stay, and none of them is in flight afterwards. */
  ghost predicate Settled(s: Leaf, s': Leaf) {
    forall n | n in s.files && !InFlight(s, n) :: n in s'.files && s'.files[n] == s.files[n] && !InFlight(s', n)
  }

  lemma MoveKeepsInv(hash: Bytes -> Digest, s: Leaf, s': Leaf)
    requires Inv(hash, s) && Opened(s'.index) == Opened(s.index)
    requires PhaseOk(s') && NewIndexOk(s') && Settled(s, s')
    requires forall n | n in s'.files :: s'.files[n].Complete?
    ensures Inv(hash, s')
  {
    forall p | Holds(s', p)
      ensures TrueEntry(hash, s', p.entry) && !InFlight(s', p.entry.filename)
    {
      assert Holds(s, p);
    }
  }

  ghost predicate Appends(a: Action) {
    a.Append? || (a.StopAppending? && !a.tear.Nothing? && !a.tear.Created?)
  }

  lemma MoveIsSettled(hash: Bytes -> Digest, s: Leaf, a: Action)
    requires Inv(hash, s) && Possible(s, a) && !Appends(a)
    ensures var s' := Turn(hash, s, a);
            && (!a.CutPower? ==> Opened(s'.index) == Opened(s.index))
            && PhaseOk(s') && NewIndexOk(s') && Settled(s, s') && forall n | n in s'.files :: s'.files[n].Complete?
  {
    if a.Rename? {
      ChosenIsParquet(Directory(s), s.phase.batch.name, a.target);
      assert a.target !in Directory(s);
    }
  }

  lemma StepKeepsInv(hash: Bytes -> Digest, s: Leaf, a: Action)
    requires Inv(hash, s)
    ensures Inv(hash, Step(hash, s, a))
  {
    if Possible(s, a) {
      if Appends(a) {
        var ix := Opened(s.index);
        var e := EntryFor(hash, s.phase.target, s.phase.batch);
        var piece := if a.StopAppending? && a.tear.Part? then Cut(e) else Whole(e);
        var ix' := if a.Append? then AppendLine(ix, e) else TornAppend(ix, e, a.tear);
        AppendKeepsInv(hash, s, ix', piece);
      } else {
        MoveIsSettled(hash, s, a);
        if !a.CutPower? {
          MoveKeepsInv(hash, s, Turn(hash, s, a));
        }
      }
    }
  }

  lemma {:induction false} RunKeepsInv(hash: Bytes -> Digest, s: Leaf, acts: seq<Action>)
    requires Inv(hash, s)
    ensures Inv(hash, Run(hash, s, acts))
  {
    if acts != [] {
      RunKeepsInv(hash, s, acts[..|acts| - 1]);
      StepKeepsInv(hash, Run(hash, s, acts[..|acts| - 1]), acts[|acts| - 1]);
    }
  }

  // ---------------------------------------------------------------------------
  // What a reader sees
  // ---------------------------------------------------------------------------

  lemma {:induction false} EntriesMeans(lines: seq<Line>, e: Entry)
    ensures e in Entries(lines) <==> [Whole(e)] in lines
  {
    if lines != [] {
      EntriesMeans(lines[..|lines| - 1], e);
      var last := lines[|lines| - 1];
      assert lines == lines[..|lines| - 1] + [last];
      if Parses(last) {
        assert last == [Whole(last[0].entry)];
      }
    }
  }

  lemma ParsedIsHeld(s: Leaf, e: Entry)
    requires s.index.Some? && e in Entries(Lines(s.index.value))
    ensures Holds(s, Whole(e)) && [Whole(e)] in AllLines(s.index.value)
  {
    EntriesMeans(Lines(s.index.value), e);
    assert [Whole(e)] in AllLines(s.index.value);
    assert Whole(e) in [Whole(e)];
  }

  lemma ListedHasLine(s: Leaf, n: Name) returns (j: nat, x: Entry)
    requires n in Listed(s)
    ensures j < |AllLines(s.index.value)| && AllLines(s.index.value)[j] == [Whole(x)] && x.filename == n
  {
    x :| x in Entries(Lines(s.index.value)) && x.filename == n;
    ParsedIsHeld(s, x);
    j :| 0 <= j < |AllLines(s.index.value)| && AllLines(s.index.value)[j] == [Whole(x)];
  }

  /** Whatever a spoiled line holds is nowhere else in the index: its file is on disk and pending. */
  lemma SpoiledIsPending(hash: Bytes -> Digest, s: Leaf, i: nat, p: Piece)
    requires Inv(hash, s) && s.index.Some? && i < |AllLines(s.index.value)|
    requires !Parses(AllLines(s.index.value)[i]) && p in AllLines(s.index.value)[i]
    ensures p.entry.filename in Pending(s) && TrueEntry(hash, s, p.entry)
  {
    var all := AllLines(s.index.value);
    assert all[i] in all && Holds(s, p);
    if p.entry.filename in Listed(s) {
      var j, x := ListedHasLine(s, p.entry.filename);
    }
  }

  // ---------------------------------------------------------------------------
  // What a run loses
  // ---------------------------------------------------------------------------

  /** This step writes a whole line, newline included. */
  ghost predicate Completes(s: Leaf, a: Action) {
    Possible(s, a) && (a.Append? || (a.StopAppending? && a.tear.Everything?))
  }

  /** This step takes away an index the directory was not synced for. */
  ghost predicate Wipes(s: Leaf, a: Action) {
    Possible(s, a) && a.CutPower?
  }

  /** The entries whose appends the run completed, in order. */
  ghost function Completed(hash: Bytes -> Digest, s: Leaf, acts: seq<Action>): seq<Entry> {
    if acts == [] then []
    else
      var init, a := acts[..|acts| - 1], acts[|acts| - 1];
      var t := Run(hash, s, init);
      Completed(hash, s, init) + if Completes(t, a) then [EntryFor(hash, t.phase.target, t.phase.batch)] else []
  }

  /** Those completed since an index was last taken away. */
  ghost function Current(hash: Bytes -> Digest, s: Leaf, acts: seq<Action>): seq<Entry> {
    if acts == [] then []
    else
      var init, a := acts[..|acts| - 1], acts[|acts| - 1];
      var t := Run(hash, s, init);
      if Wipes(t, a) then []
      else Current(hash, s, init) + if Completes(t, a) then [EntryFor(hash, t.phase.target, t.phase.batch)] else []
  }

  /** Those whose index was taken away. */
  ghost function Gone(hash: Bytes -> Digest, s: Leaf, acts: seq<Action>): seq<Entry> {
    if acts == [] then []
    else
      var init := acts[..|acts| - 1];
      Gone(hash, s, init) + if Wipes(Run(hash, s, init), acts[|acts| - 1]) then Current(hash, s, init) else []
  }

  /** How often an index was taken away. */
  ghost function Wipings(hash: Bytes -> Digest, s: Leaf, acts: seq<Action>): nat {
    if acts == [] then 0
    else
      var init := acts[..|acts| - 1];
      Wipings(hash, s, init) + if Wipes(Run(hash, s, init), acts[|acts| - 1]) then 1 else 0
  }

  lemma {:induction false} CompletedSplits(hash: Bytes -> Digest, s: Leaf, acts: seq<Action>)
    ensures Completed(hash, s, acts) == Gone(hash, s, acts) + Current(hash, s, acts)
  {
    if acts != [] {
      CompletedSplits(hash, s, acts[..|acts| - 1]);
    }
  }

  ghost function Missing(written: seq<Entry>, read: seq<Entry>): seq<Entry> {
    if written == [] then []
    else
      var e := written[|written| - 1];
      Missing(written[..|written| - 1], read) + if e in read then [] else [e]
  }

  /** What the run completed and a reader no longer gets. */
  ghost function Lost(hash: Bytes -> Digest, s: Leaf, acts: seq<Action>): seq<Entry> {
    Missing(Completed(hash, s, acts), Entries(Lines(Opened(Run(hash, s, acts).index))))
  }

  /** Line i was closed by the append of entry i. */
  ghost predicate ClosedBy(lines: seq<Line>, written: seq<Entry>) {
    && |lines| == |written|
    && forall i | 0 <= i < |lines| :: Closed(lines[i]) && lines[i][|lines[i]| - 1] == Whole(written[i])
  }

  lemma StepCloses(hash: Bytes -> Digest, s: Leaf, a: Action)
    ensures var ix, ix' := Opened(s.index), Opened(Step(hash, s, a).index);
            if Completes(s, a) then ix' == AppendLine(ix, EntryFor(hash, s.phase.target, s.phase.batch))
            else if Wipes(s, a) then ix' == Index([], [])
            else ix'.lines == ix.lines
  {}

  lemma {:induction false} RunCloses(hash: Bytes -> Digest, s: Leaf, acts: seq<Action>)
    requires s.index.None?
    ensures ClosedBy(Opened(Run(hash, s, acts).index).lines, Current(hash, s, acts))
  {
    if acts != [] {
      RunCloses(hash, s, acts[..|acts| - 1]);
      StepCloses(hash, Run(hash, s, acts[..|acts| - 1]), acts[|acts| - 1]);
    }
  }

  /** A power cut takes at most one completed entry. */
  lemma {:induction false} GoneIsBounded(hash: Bytes -> Digest, s: Leaf, acts: seq<Action>)
    requires s.index.None? && Inv(hash, s)
    ensures |Gone(hash, s, acts)| <= Wipings(hash, s, acts)
  {
    if acts != [] {
      var init := acts[..|acts| - 1];
      GoneIsBounded(hash, s, init);
      RunKeepsInv(hash, s, init);
      RunCloses(hash, s, init);
    }
  }

  // ---------------------------------------------------------------------------
  // Entries the index no longer speaks of
  // ---------------------------------------------------------------------------

  /** The entry's file is there, complete and settled, and nothing in the index speaks of it. */
  ghost predicate Astray(hash: Bytes -> Digest, s: Leaf, e: Entry) {
    TrueEntry(hash, s, e) && !InFlight(s, e.filename) && forall p | Holds(s, p) :: p.entry.filename != e.filename
  }

  lemma AppendKeepsAstray(hash: Bytes -> Digest, s: Leaf, ix': Index, p: Piece, e: Entry)
    requires Inv(hash, s) && s.phase.Durable? && p.entry == EntryFor(hash, s.phase.target, s.phase.batch)
    requires Grows(Opened(s.index), ix', p) && Astray(hash, s, e)
    ensures Astray(hash, s.(index := Some(ix'), synced := s.index.Some? && s.synced, phase := Idle), e)
  {
    var ix := Opened(s.index);
    var s' := s.(index := Some(ix'), synced := s.index.Some? && s.synced, phase := Idle);
    forall line, q | line in AllLines(ix) && q in line
      ensures Holds(s, q)
    {}
    GrowthKeepsIndex(ix, ix', p);
    forall q | Holds(s', q)
      ensures q.entry.filename != e.filename
    {
      if q != p {
        var line :| line in AllLines(ix') && q in line;
        assert exists l | l in AllLines(ix) :: q in l;
        assert Holds(s, q);
      }
    }
  }

  lemma StepKeepsAstray(hash: Bytes -> Digest, s: Leaf, a: Action, e: Entry)
    requires Inv(hash, s) && Astray(hash, s, e)
    ensures Astray(hash, Step(hash, s, a), e)
  {
    if Possible(s, a) {
      if Appends(a) {
        var ix := Opened(s.index);
        var f := EntryFor(hash, s.phase.target, s.phase.batch);
        var piece := if a.StopAppending? && a.tear.Part? then Cut(f) else Whole(f);
        var ix' := if a.Append? then AppendLine(ix, f) else TornAppend(ix, f, a.tear);
        AppendKeepsAstray(hash, s, ix', piece, e);
      } else {
        MoveIsSettled(hash, s, a);
        MoveKeepsAstray(hash, s, Turn(hash, s, a), e);
      }
    }
  }

  lemma MoveKeepsAstray(hash: Bytes -> Digest, s: Leaf, s': Leaf, e: Entry)
    requires Settled(s, s') && Astray(hash, s, e)
    requires s'.index.None? || Opened(s'.index) == Opened(s.index)
    ensures Astray(hash, s', e)
  {
    forall p | Holds(s', p)
      ensures p.entry.filename != e.filename
    {
      assert Holds(s, p);
    }
  }

  /** What an index held when it was taken away is astray. */
  lemma WipingStrays(hash: Bytes -> Digest, s: Leaf, a: Action, p: Piece)
    requires Inv(hash, s) && Wipes(s, a) && Holds(s, p)
    ensures Astray(hash, Step(hash, s, a), p.entry)
  {
    MoveIsSettled(hash, s, a);
  }

  lemma {:induction false} GoneIsAstray(hash: Bytes -> Digest, s: Leaf, acts: seq<Action>, e: Entry)
    requires s.index.None? && Inv(hash, s) && e in Gone(hash, s, acts)
    ensures Astray(hash, Run(hash, s, acts), e)
  {
    var init, a := acts[..|acts| - 1], acts[|acts| - 1];
    var t := Run(hash, s, init);
    RunKeepsInv(hash, s, init);
    if e in Gone(hash, s, init) {
      GoneIsAstray(hash, s, init, e);
      StepKeepsAstray(hash, t, a, e);
    } else {
      RunCloses(hash, s, init);
      var i :| 0 <= i < |Current(hash, s, init)| && Current(hash, s, init)[i] == e;
      assert AllLines(t.index.value)[i] in AllLines(t.index.value);
      assert Whole(e) in AllLines(t.index.value)[i];
      WipingStrays(hash, t, a, Whole(e));
    }
  }

  lemma OpenIsHeld(s: Leaf, p: Piece)
    requires s.index.Some? && p in s.index.value.open
    ensures Holds(s, p)
  {
    var all := AllLines(s.index.value);
    assert all[|all| - 1] == s.index.value.open;
  }

  /** An astray entry is not read; its file is pending as soon as there is an index. */
  lemma AstrayIsUnread(hash: Bytes -> Digest, s: Leaf, e: Entry)
    requires Inv(hash, s) && Astray(hash, s, e)
    ensures e !in Entries(Lines(Opened(s.index))) && Opened(s.index).open != [Whole(e)]
    ensures s.index.Some? ==> e.filename in Pending(s)
  {
    if s.index.Some? {
      if s.index.value.open == [Whole(e)] {
        OpenIsHeld(s, Whole(e));
      }
      forall x | x in Entries(Lines(s.index.value))
        ensures x.filename != e.filename
      {
        ParsedIsHeld(s, x);
        assert Whole(x).entry.filename != e.filename;
      }
    }
  }

  lemma SameLine(lines: seq<Line>, i: nat, j: nat, p: Piece)
    requires Separate(lines) && i < |lines| && j < |lines| && p in lines[i] && p in lines[j]
    ensures i == j
  {}

  /** An entry is read back exactly when its line holds nothing else. */
  lemma ReadExactlyWhenAlone(ix: Index, e: Entry, i: nat)
    requires IndexOk(ix) && i < |AllLines(ix)| && Whole(e) in AllLines(ix)[i]
    ensures e in Entries(Lines(ix)) <==> AllLines(ix)[i] == [Whole(e)]
  {
    var all := AllLines(ix);
    EntriesMeans(Lines(ix), e);
    if all[i] == [Whole(e)] {
      assert Lines(ix)[i] == [Whole(e)];
    }
    if e in Entries(Lines(ix)) {
      var k :| 0 <= k < |Lines(ix)| && Lines(ix)[k] == [Whole(e)];
      assert all[k] == [Whole(e)];
      assert Whole(e) in all[k];
      SameLine(all, i, k, Whole(e));
    }
  }

  lemma CompletedIsRead(ix: Index, written: seq<Entry>, i: nat)
    requires IndexOk(ix) && ClosedBy(ix.lines, written) && i < |written|
    ensures written[i] in Entries(Lines(ix)) <==> Parses(ix.lines[i])
  {
    assert AllLines(ix)[i] == ix.lines[i];
    ReadExactlyWhenAlone(ix, written[i], i);
  }

  lemma {:induction false} MissingCount(lines: seq<Line>, written: seq<Entry>, read: seq<Entry>)
    requires |lines| == |written|
    requires forall i | 0 <= i < |lines| :: lines[i] != [] && (written[i] in read <==> Parses(lines[i]))
    ensures |Missing(written, read)| == Torn(lines)
  {
    if written != [] {
      MissingCount(lines[..|lines| - 1], written[..|written| - 1], read);
    }
  }

  lemma {:induction false} MissingMeans(written: seq<Entry>, read: seq<Entry>, e: Entry)
    ensures e in Missing(written, read) <==> e in written && e !in read
  {
    if written != [] {
      MissingMeans(written[..|written| - 1], read, e);
      assert written == written[..|written| - 1] + [written[|written| - 1]];
    }
  }

  lemma TornCountsOpen(ix: Index)
    ensures Torn(ix.lines) <= Torn(Lines(ix))
  {
    if ix.open == [] {
      assert Lines(ix) == ix.lines;
    } else {
      assert Lines(ix)[..|ix.lines|] == ix.lines;
    }
  }

  /** A completed entry that is no longer read has a complete file, pending as soon as there is an index. */
  lemma LostIsPending(hash: Bytes -> Digest, s: Leaf, acts: seq<Action>, e: Entry)
    requires s.index.None? && Inv(hash, s) && e in Lost(hash, s, acts)
    ensures var t := Run(hash, s, acts); TrueEntry(hash, t, e) && (t.index.Some? ==> e.filename in Pending(t))
  {
    var t, current := Run(hash, s, acts), Current(hash, s, acts);
    var ix := Opened(t.index);
    RunKeepsInv(hash, s, acts);
    CompletedSplits(hash, s, acts);
    MissingMeans(Completed(hash, s, acts), Entries(Lines(ix)), e);
    if e in Gone(hash, s, acts) {
      GoneIsAstray(hash, s, acts, e);
      AstrayIsUnread(hash, t, e);
    } else {
      RunCloses(hash, s, acts);
      var i :| 0 <= i < |current| && current[i] == e;
      UnreadIsPending(hash, t, current, i);
    }
  }

  lemma UnreadIsPending(hash: Bytes -> Digest, t: Leaf, written: seq<Entry>, i: nat)
    requires Inv(hash, t) && t.index.Some? && ClosedBy(t.index.value.lines, written) && i < |written|
    requires written[i] !in Entries(Lines(t.index.value))
    ensures TrueEntry(hash, t, written[i]) && written[i].filename in Pending(t)
  {
    var ix := t.index.value;
    CompletedIsRead(ix, written, i);
    assert AllLines(ix)[i] == ix.lines[i] && Whole(written[i]) in ix.lines[i];
    SpoiledIsPending(hash, t, i, Whole(written[i]));
  }

  /**
   One append. It adds its entry and keeps the others exactly when the file ends in a newline;
   otherwise it closes a line that does not parse, and takes with it whatever that line held.
   */
  lemma AppendIsSafeIff(ix: Index, e: Entry)
    ensures Entries(Lines(AppendLine(ix, e))) == Entries(Lines(ix)) + [e] <==> ix.open == []
    ensures ix.open != [] ==> Entries(Lines(AppendLine(ix, e))) == Entries(ix.lines)
  {
    var lines' := Lines(AppendLine(ix, e));
    assert lines'[..|lines'| - 1] == ix.lines;
    if ix.open == [] {
      assert ix.open + [Whole(e)] == [Whole(e)] && Lines(ix) == ix.lines;
    } else {
      assert Lines(ix)[..|ix.lines|] == ix.lines;
      assert |Entries(Lines(ix))| >= |Entries(ix.lines)|;
    }
  }

  /** Every completed append found the file ending in a newline. */
  ghost predicate CleanAppends(hash: Bytes -> Digest, s: Leaf, acts: seq<Action>) {
    acts == [] ||
    var init := acts[..|acts| - 1]; var t := Run(hash, s, init);
    CleanAppends(hash, s, init) && (Completes(t, acts[|acts| - 1]) ==> Opened(t.index).open == [])
  }

  /** No power cut found a completed entry in an index the directory was not synced for. */
  ghost predicate CleanCuts(hash: Bytes -> Digest, s: Leaf, acts: seq<Action>) {
    acts == [] ||
    var init := acts[..|acts| - 1]; var t := Run(hash, s, init);
    CleanCuts(hash, s, init) && (Wipes(t, acts[|acts| - 1]) ==> Opened(t.index).lines == [])
  }

  lemma {:induction false} CleanCutsMeansNoneGone(hash: Bytes -> Digest, s: Leaf, acts: seq<Action>)
    requires s.index.None?
    ensures CleanCuts(hash, s, acts) <==> Gone(hash, s, acts) == []
  {
    if acts != [] {
      CleanCutsMeansNoneGone(hash, s, acts[..|acts| - 1]);
      RunCloses(hash, s, acts[..|acts| - 1]);
    }
  }

  /** An index that may still be taken away has no torn line. */
  lemma SmallIsNotTorn(ix: Index)
    requires Small(ix) && IndexOk(ix)
    ensures Torn(ix.lines) == 0
  {
    if ix.lines != [] {
      assert ix.lines == [] + [ix.lines[0]] && ix.lines[0] in ix.lines;
      TornSnoc([], ix.lines[0]);
    }
  }

  lemma {:induction false} CleanMeansNoneTorn(hash: Bytes -> Digest, s: Leaf, acts: seq<Action>)
    requires s.index.None? && Inv(hash, s)
    ensures CleanAppends(hash, s, acts) <==> Torn(Opened(Run(hash, s, acts).index).lines) == 0
  {
    if acts != [] {
      var init, a := acts[..|acts| - 1], acts[|acts| - 1];
      CleanMeansNoneTorn(hash, s, init);
      var t := Run(hash, s, init);
      StepCloses(hash, t, a);
      RunKeepsInv(hash, s, init);
      if Wipes(t, a) {
        SmallIsNotTorn(t.index.value);
      } else if Completes(t, a) {
        AppendTears(Opened(t.index), EntryFor(hash, t.phase.target, t.phase.batch));
      }
    }
  }

  lemma AppendTears(ix: Index, e: Entry)
    ensures Torn(AppendLine(ix, e).lines) == Torn(ix.lines) + if ix.open == [] then 0 else 1
  {
    var line := ix.open + [Whole(e)];
    TornSnoc(ix.lines, line);
    assert ix.open == [] ==> line == [Whole(e)];
  }

  lemma TornSnoc(lines: seq<Line>, line: Line)
    ensures Torn(lines + [line]) == Torn(lines) + if line != [] && !Parses(line) then 1 else 0
  {
    assert (lines + [line])[..|lines|] == lines;
  }

  /**
   What a run loses of the entries it completed: those in an index that a power cut took away, at most
   one each time, and as many as there are closed lines that do not parse. It loses none if and only if
   each completed append found the file ending in a newline and each such power cut found no completed
   entry.
   */
  lemma NothingIsLostIff(hash: Bytes -> Digest, s: Leaf, acts: seq<Action>)
    requires s.index.None? && Inv(hash, s)
    ensures |Lost(hash, s, acts)| == |Gone(hash, s, acts)| + Torn(Opened(Run(hash, s, acts).index).lines)
    ensures |Gone(hash, s, acts)| <= Wipings(hash, s, acts)
    ensures Lost(hash, s, acts) == [] <==> CleanAppends(hash, s, acts) && CleanCuts(hash, s, acts)
  {
    var ix := Opened(Run(hash, s, acts).index);
    var gone, current, read := Gone(hash, s, acts), Current(hash, s, acts), Entries(Lines(ix));
    CompletedSplits(hash, s, acts);
    MissingConcat(gone, current, read);
    GoneIsMissing(hash, s, acts);
    CurrentMissing(hash, s, acts);
    GoneIsBounded(hash, s, acts);
    CleanMeansNoneTorn(hash, s, acts);
    CleanCutsMeansNoneGone(hash, s, acts);
  }

  lemma {:induction false} MissingConcat(a: seq<Entry>, b: seq<Entry>, read: seq<Entry>)
    ensures Missing(a + b, read) == Missing(a, read) + Missing(b, read)
  {
    if b == [] {
      assert a + b == a;
    } else {
      MissingConcat(a, b[..|b| - 1], read);
      assert (a + b)[..|a + b| - 1] == a + b[..|b| - 1];
    }
  }

  lemma {:induction false} AllMissing(written: seq<Entry>, read: seq<Entry>)
    requires forall e | e in written :: e !in read
    ensures Missing(written, read) == written
  {
    if written != [] {
      AllMissing(written[..|written| - 1], read);
      assert written == written[..|written| - 1] + [written[|written| - 1]];
    }
  }

  lemma GoneIsMissing(hash: Bytes -> Digest, s: Leaf, acts: seq<Action>)
    requires s.index.None? && Inv(hash, s)
    ensures Missing(Gone(hash, s, acts), Entries(Lines(Opened(Run(hash, s, acts).index)))) == Gone(hash, s, acts)
  {
    var t := Run(hash, s, acts);
    RunKeepsInv(hash, s, acts);
    forall e | e in Gone(hash, s, acts)
      ensures e !in Entries(Lines(Opened(t.index)))
    {
      GoneIsAstray(hash, s, acts, e);
      AstrayIsUnread(hash, t, e);
    }
    AllMissing(Gone(hash, s, acts), Entries(Lines(Opened(t.index))));
  }

  lemma CurrentMissing(hash: Bytes -> Digest, s: Leaf, acts: seq<Action>)
    requires s.index.None? && Inv(hash, s)
    ensures var ix := Opened(Run(hash, s, acts).index);
            |Missing(Current(hash, s, acts), Entries(Lines(ix)))| == Torn(ix.lines)
  {
    var ix, current := Opened(Run(hash, s, acts).index), Current(hash, s, acts);
    RunKeepsInv(hash, s, acts);
    RunCloses(hash, s, acts);
    EmptyIndexIsOk();
    forall i | 0 <= i < |current|
      ensures current[i] in Entries(Lines(ix)) <==> Parses(ix.lines[i])
    {
      CompletedIsRead(ix, current, i);
    }
    MissingCount(ix.lines, current, Entries(Lines(ix)));
  }

  lemma EmptyIndexIsOk()
    ensures IndexOk(Index([], []))
  {}

  // ---------------------------------------------------------------------------
  // Entries written whole, without their newline
  // ---------------------------------------------------------------------------

  ghost predicate Unends(s: Leaf, a: Action) {
    Possible(s, a) && a.StopAppending? && a.tear.AllButNewline?
  }

  ghost function Unended(hash: Bytes -> Digest, s: Leaf, acts: seq<Action>): seq<Entry> {
    if acts == [] then []
    else
      var init, a := acts[..|acts| - 1], acts[|acts| - 1];
      var t := Run(hash, s, init);
      Unended(hash, s, init) + if Unends(t, a) then [EntryFor(hash, t.phase.target, t.phase.batch)] else []
  }

  /** The entry is on the last, open line, or shares a closed one. */
  ghost predicate Sits(ix: Index, e: Entry) {
    Whole(e) in ix.open || exists i :: 0 <= i < |ix.lines| && Whole(e) in ix.lines[i] && |ix.lines[i]| > 1
  }

  lemma StepKeepsSeat(hash: Bytes -> Digest, s: Leaf, a: Action, e: Entry)
    requires Sits(Opened(s.index), e) && !Wipes(s, a)
    ensures Sits(Opened(Step(hash, s, a).index), e)
  {
    var ix, ix' := Opened(s.index), Opened(Step(hash, s, a).index);
    StepCloses(hash, s, a);
    if Whole(e) in ix.open {
      if Completes(s, a) {
        assert ix'.lines[|ix.lines|] == ix.open + [Whole(EntryFor(hash, s.phase.target, s.phase.batch))];
      }
    } else {
      var i :| 0 <= i < |ix.lines| && Whole(e) in ix.lines[i] && |ix.lines[i]| > 1;
      assert ix'.lines[i] == ix.lines[i];
    }
  }

  lemma SittingIsHeld(s: Leaf, e: Entry)
    requires Sits(Opened(s.index), e)
    ensures Holds(s, Whole(e))
  {
    var ix := s.index.value;
    assert AllLines(ix)[|ix.lines|] == ix.open;
    if Whole(e) !in ix.open {
      var i :| 0 <= i < |ix.lines| && Whole(e) in ix.lines[i] && |ix.lines[i]| > 1;
      assert AllLines(ix)[i] == ix.lines[i];
    }
  }

  lemma {:induction false} UnendedSit(hash: Bytes -> Digest, s: Leaf, acts: seq<Action>, e: Entry)
    requires Inv(hash, s) && e in Unended(hash, s, acts)
    ensures Sits(Opened(Run(hash, s, acts).index), e) || Astray(hash, Run(hash, s, acts), e)
  {
    var init, a := acts[..|acts| - 1], acts[|acts| - 1];
    var t := Run(hash, s, init);
    RunKeepsInv(hash, s, init);
    if e in Unended(hash, s, init) {
      UnendedSit(hash, s, init, e);
      if Astray(hash, t, e) {
        StepKeepsAstray(hash, t, a, e);
      } else if Wipes(t, a) {
        SittingIsHeld(t, e);
        WipingStrays(hash, t, a, Whole(e));
      } else {
        StepKeepsSeat(hash, t, a, e);
      }
    }
  }

  /**
   An entry written whole without its newline is read back exactly as long as it is alone on the open
   last line: the next append that writes anything, or a power cut that takes the index, takes it away.
   Its file is then pending as soon as there is an index.
   */
  lemma UnendedIsReadIff(hash: Bytes -> Digest, s: Leaf, acts: seq<Action>, e: Entry)
    requires s.index.None? && Inv(hash, s) && e in Unended(hash, s, acts)
    ensures var t := Run(hash, s, acts); var ix := Opened(t.index);
            && (e in Entries(Lines(ix)) <==> ix.open == [Whole(e)])
            && (e !in Entries(Lines(ix)) ==> TrueEntry(hash, t, e) && (t.index.Some? ==> e.filename in Pending(t)))
  {
    RunKeepsInv(hash, s, acts);
    UnendedSit(hash, s, acts, e);
    var t := Run(hash, s, acts);
    if Astray(hash, t, e) {
      AstrayIsUnread(hash, t, e);
    } else {
      var i := ReadExactlyWhenOpen(t.index.value, e);
      if !Parses(AllLines(t.index.value)[i]) {
        SpoiledIsPending(hash, t, i, Whole(e));
      }
    }
  }

  lemma ReadExactlyWhenOpen(ix: Index, e: Entry) returns (i: nat)
    requires IndexOk(ix) && Sits(ix, e)
    ensures e in Entries(Lines(ix)) <==> ix.open == [Whole(e)]
    ensures i < |AllLines(ix)| && Whole(e) in AllLines(ix)[i]
    ensures Parses(AllLines(ix)[i]) ==> e in Entries(Lines(ix))
  {
    if Whole(e) in ix.open {
      i := |ix.lines|;
      assert AllLines(ix)[i] == ix.open;
    } else {
      i :| 0 <= i < |ix.lines| && Whole(e) in ix.lines[i] && |ix.lines[i]| > 1;
      assert AllLines(ix)[i] == ix.lines[i];
    }
    ReadExactlyWhenAlone(ix, e, i);
  }

  // ---------------------------------------------------------------------------
  // Crash consistency
  // ---------------------------------------------------------------------------

  /**
   Crash consistency. After any run from a leaf of complete files without an index: every parsed
   entry is true of a complete file; the parquet files split exactly into listed and pending once an
   index exists; and the entries whose appends completed and which are no longer read are no more than
   the torn lines and the power cuts that took an index, each still on disk, and pending once an index
   exists.
   */
  lemma LeafIsConsistent(hash: Bytes -> Digest, files: map<Name, File>, staging: map<Name, File>, acts: seq<Action>)
    requires forall n | n in files :: files[n].Complete?
    ensures var s0 := Leaf(files, staging, None, false, Idle);
            var s, lost := Run(hash, s0, acts), Lost(hash, s0, acts);
            && Inv(hash, s)
            && (forall n | n in s.files :: s.files[n].Complete?)
            && (s.index.Some? ==>
                  && (forall e | e in Entries(Lines(s.index.value)) :: TrueEntry(hash, s, e))
                  && Present(s) == Listed(s) + Pending(s) && Listed(s) !! Pending(s)
                  && (forall e | e in lost :: e.filename in Pending(s)))
            && |lost| <= Torn(Lines(Opened(s.index))) + Wipings(hash, s0, acts)
            && (forall e | e in lost :: TrueEntry(hash, s, e))
  {
    var s0 := Leaf(files, staging, None, false, Idle);
    RunKeepsInv(hash, s0, acts);
    NothingIsLostIff(hash, s0, acts);
    var s := Run(hash, s0, acts);
    TornCountsOpen(Opened(s.index));
    if s.index.Some? {
      forall e | e in Entries(Lines(s.index.value))
        ensures TrueEntry(hash, s, e)
      {
        ParsedIsHeld(s, e);
        assert TrueEntry(hash, s, Whole(e).entry);
      }
      PendingIsDefinedIff(hash, s);
    }
    forall e | e in Lost(hash, s0, acts)
      ensures TrueEntry(hash, s, e) && (s.index.Some? ==> e.filename in Pending(s))
    {
      LostIsPending(hash, s0, acts, e);
    }
  }

  /**
   "Present but unlisted is pending" holds exactly when an index exists or no parquet file does: a
   leaf stopped between its first rename and its first append shows its files as neither.
   */
  lemma PendingIsDefinedIff(hash: Bytes -> Digest, s: Leaf)
    requires Inv(hash, s)
    ensures Present(s) == Listed(s) + Pending(s) <==> s.index.Some? || Present(s) == {}
  {
    if s.index.Some? {
      forall n | n in Listed(s)
        ensures n in Present(s)
      {
        var e :| e in Entries(Lines(s.index.value)) && e.filename == n;
        ParsedIsHeld(s, e);
        assert TrueEntry(hash, s, Whole(e).entry);
      }
    }
  }

  /** The gap is reachable: one flush stopped after its rename. */
  lemma FirstFlushCanHide(hash: Bytes -> Digest, b: Batch)
    requires EndsWith(b.name, PARQUET) && b.name !in {STAGING_DIR, LOCK_FILE}
    ensures var acts := [Begin(b, {}), WriteStaged, Rename(b.name), SyncDirectory, StopAppending(Nothing)];
            var s := Run(hash, Leaf(map[], map[], None, false, Idle), acts);
            s.files == map[b.name := Complete(b)] && Present(s) == {b.name} && Listed(s) == {} && Pending(s) == {}
  {
    var s0 := Leaf(map[], map[], None, false, Idle);
    RunFive(hash, s0, Begin(b, {}), WriteStaged, Rename(b.name), SyncDirectory, StopAppending(Nothing));
    var s1 := Step(hash, s0, Begin(b, {}));
    var s2 := Step(hash, s1, WriteStaged);
    assert Chosen(Directory(s2), b.name, b.name);
    var s3 := Step(hash, s2, Rename(b.name));
    assert s3.files == map[b.name := Complete(b)];
  }

  /** A flush that gets as far as its last step, which completes or stops. */
  ghost function FlushActs(b: Batch, swept: set<Name>, last: Action): seq<Action> {
    [Begin(b, swept), WriteStaged, Rename(b.name), SyncDirectory, last]
  }

  lemma FlushLeaves(hash: Bytes -> Digest, s: Leaf, b: Batch, last: Action)
    requires s.phase.Idle? && EndsWith(b.name, PARQUET) && b.name !in Directory(s)
    requires last.Append? || last.StopAppending?
    ensures Run(hash, s, FlushActs(b, s.staging.Keys, last))
            == Step(hash, Leaf(s.files[b.name := Complete(b)], map[], s.index, true, Durable(b, b.name)), last)
  {
    FirstThree(hash, s, b, b.name);
    RunFive(hash, s, Begin(b, s.staging.Keys), WriteStaged, Rename(b.name), SyncDirectory, last);
  }

  lemma {:induction false} RunConcat(hash: Bytes -> Digest, s: Leaf, a: seq<Action>, b: seq<Action>)
    ensures Run(hash, s, a + b) == Run(hash, Run(hash, s, a), b)
  {
    if b == [] {
      assert a + b == a;
    } else {
      RunConcat(hash, s, a, b[..|b| - 1]);
      assert (a + b)[..|a + b| - 1] == a + b[..|b| - 1];
    }
  }

  /**
   The loss is reachable, and it is not the line in flight: from an empty leaf, a flush stopped just
   before its newline is read back, and the next flush, which nothing stops, leaves neither.
   */
  lemma ReadEntryCanBeLost(hash: Bytes -> Digest, b: Batch, c: Batch)
    requires EndsWith(b.name, PARQUET) && EndsWith(c.name, PARQUET) && b.name != c.name
    requires {b.name, c.name} !! {STAGING_DIR, LOCK_FILE, INDEX_FILE}
    ensures var s0 := Leaf(map[], map[], None, false, Idle);
            var one := FlushActs(b, {}, StopAppending(AllButNewline));
            var two := one + FlushActs(c, {}, Append);
            var e, f := EntryFor(hash, b.name, b), EntryFor(hash, c.name, c);
            && Run(hash, s0, one).index == Some(Index([], [Whole(e)]))
            && Entries(Lines(Index([], [Whole(e)]))) == [e] && Torn(Lines(Index([], [Whole(e)]))) == 0
            && Run(hash, s0, two).index == Some(Index([[Whole(e), Whole(f)]], []))
            && Entries(Lines(Index([[Whole(e), Whole(f)]], []))) == []
            && Torn(Lines(Index([[Whole(e), Whole(f)]], []))) == 1
  {
    var s0 := Leaf(map[], map[], None, false, Idle);
    var one, two := FlushActs(b, {}, StopAppending(AllButNewline)), FlushActs(c, {}, Append);
    var e, f := EntryFor(hash, b.name, b), EntryFor(hash, c.name, c);
    assert s0.staging.Keys == {};
    FlushLeaves(hash, s0, b, StopAppending(AllButNewline));
    var s1 := Run(hash, s0, one);
    assert [] + [Whole(e)] == [Whole(e)];
    assert s1 == Leaf(map[b.name := Complete(b)], map[], Some(Index([], [Whole(e)])), false, Idle);
    assert s1.staging.Keys == {};
    FlushLeaves(hash, s1, c, Append);
    RunConcat(hash, s0, one, two);
    assert [Whole(e)] + [Whole(f)] == [Whole(e), Whole(f)];
    assert [] + [[Whole(e), Whole(f)]] == [[Whole(e), Whole(f)]];
    OneLine([Whole(e)]);
    OneLine([Whole(e), Whole(f)]);
    assert Lines(Index([], [Whole(e)])) == [[Whole(e)]];
    assert Lines(Index([[Whole(e), Whole(f)]], [])) == [[Whole(e), Whole(f)]];
  }

  /**
   What an unsynced directory costs: from an empty leaf, the first flush completes and is read back, and
   a power cut before the next flush leaves its file neither listed nor pending.
   */
  lemma FirstIndexCanVanish(hash: Bytes -> Digest, b: Batch)
    requires EndsWith(b.name, PARQUET) && b.name !in {STAGING_DIR, LOCK_FILE, INDEX_FILE}
    ensures var s0 := Leaf(map[], map[], None, false, Idle);
            var acts := FlushActs(b, {}, Append);
            var e := EntryFor(hash, b.name, b);
            var s, t := Run(hash, s0, acts), Run(hash, s0, acts + [CutPower(false)]);
            && s.index == Some(Index([[Whole(e)]], [])) && Entries(Lines(Index([[Whole(e)]], []))) == [e]
            && Present(t) == {b.name} && Listed(t) == {} && Pending(t) == {}
  {
    var s0 := Leaf(map[], map[], None, false, Idle);
    var acts, e := FlushActs(b, {}, Append), EntryFor(hash, b.name, b);
    assert s0.staging.Keys == {};
    FlushLeaves(hash, s0, b, Append);
    assert [] + [Whole(e)] == [Whole(e)] && [] + [[Whole(e)]] == [[Whole(e)]];
    var s := Run(hash, s0, acts);
    assert s == Leaf(map[b.name := Complete(b)], map[], Some(Index([[Whole(e)]], [])), false, Idle);
    OneLine([Whole(e)]);
    assert Lines(Index([[Whole(e)]], [])) == [[Whole(e)]];
    RunSnoc(hash, s0, acts, CutPower(false));
  }

  lemma OneLine(line: Line)
    ensures Entries([line]) == if Parses(line) then [line[0].entry] else []
    ensures Torn([line]) == if line != [] && !Parses(line) then 1 else 0
  {
    assert [line][..0] == [];
  }

  /** No step rewrites or removes a file, except a rename that a power cut undoes before the directory is synced. */
  lemma StepKeepsFiles(hash: Bytes -> Digest, s: Leaf, a: Action, n: Name)
    requires n in s.files && !(s.phase.Renamed? && s.phase.target == n)
    ensures var s' := Step(hash, s, a);
            n in s'.files && s'.files[n] == s.files[n] && !(s'.phase.Renamed? && s'.phase.target == n)
  {}

  /** Once a file is durable it is there, unchanged, for ever. */
  lemma {:induction false} FilesAreNeverOverwritten(hash: Bytes -> Digest, s: Leaf, acts: seq<Action>, n: Name)
    requires n in s.files && !(s.phase.Renamed? && s.phase.target == n)
    ensures var s' := Run(hash, s, acts);
            n in s'.files && s'.files[n] == s.files[n] && !(s'.phase.Renamed? && s'.phase.target == n)
  {
    if acts != [] {
      FilesAreNeverOverwritten(hash, s, acts[..|acts| - 1], n);
      StepKeepsFiles(hash, Run(hash, s, acts[..|acts| - 1]), acts[|acts| - 1], n);
    }
  }
}
