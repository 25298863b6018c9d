/**
 One leaf directory of the parquet sink: staged write, atomic rename, directory fsync, index append
 (aetelier-io/src/leaf_index.rs and `persist_leaf` in aetelier-io/src/sink.rs).

 The writer may stop between any two steps and in the middle of the two that are not atomic, and a
 power cut undoes what the directory has not been synced for: a rename, or a new index file. The
 hash is any function of the bytes. The text of an index line is a sequence of pieces: a piece is
 the whole encoding of one entry or a proper prefix of it, and a line parses exactly when it is one
 whole encoding.
 */
module LeafIndex {
  import opened Wrappers
  import opened Naming

  type Name = string
  type Bytes = seq<int>
  type Digest = int

  const INDEX_FILE := "index.jsonl"
  const STAGING_DIR := ".staging"
  const LOCK_FILE := ".index.lock"

  datatype Batch = Batch(name: Name, bytes: Bytes, rows: nat, tMin: nat, tMax: nat, schema: string)

  datatype File = Complete(batch: Batch) | Partial

  datatype Entry = Entry(filename: Name, sha256: Digest, rows: nat, tMin: nat, tMax: nat, schema: string)

  datatype Piece = Whole(entry: Entry) | Cut(entry: Entry)

  type Line = seq<Piece>

  /** Closed lines, then whatever follows the last newline. */
  datatype Index = Index(lines: seq<Line>, open: Line)

  datatype Phase =
    | Idle
    | Writing(batch: Batch)
    | Staged(batch: Batch)
    | Renamed(batch: Batch, target: Name)
    | Durable(batch: Batch, target: Name)

  /** `synced`: the directory has been synced since the index file was created. */
  datatype Leaf = Leaf(
    files: map<Name, File>, staging: map<Name, File>, index: Option<Index>, synced: bool, phase: Phase)

  /**
   How far an append got before it stopped: not to the file, to an open (perhaps new) file, or to part
   of the line.
   */
  datatype Tear = Nothing | Created | Part | AllButNewline | Everything

  datatype Action =
    | Begin(batch: Batch, swept: set<Name>)
    | WriteStaged
    | Rename(target: Name)
    | SyncDirectory
    | Append
    | StopWriting(residue: bool)
    | StopStaged
    | StopRenamed(undone: bool)
    | StopAppending(tear: Tear)
    | CutPower(undone: bool)

  // ---------------------------------------------------------------------------
  // Steps
  // ---------------------------------------------------------------------------

  function Directory(s: Leaf): set<Name> {
    s.files.Keys + {STAGING_DIR, LOCK_FILE} + (if s.index.Some? then {INDEX_FILE} else {})
  }

  function EntryFor(hash: Bytes -> Digest, target: Name, b: Batch): Entry {
    Entry(target, hash(b.bytes), b.rows, b.tMin, b.tMax, b.schema)
  }

  function Opened(index: Option<Index>): Index {
    if index.Some? then index.value else Index([], [])
  }

  /** A whole line lands behind whatever the last line already holds: no newline is restored. */
  function AppendLine(ix: Index, e: Entry): Index {
    Index(ix.lines + [ix.open + [Whole(e)]], [])
  }

  function TornAppend(ix: Index, e: Entry, tear: Tear): Index {
    match tear
    case Nothing | Created => ix
    case Part => ix.(open := ix.open + [Cut(e)])
    case AllButNewline => ix.(open := ix.open + [Whole(e)])
    case Everything => AppendLine(ix, e)
  }

  predicate Possible(s: Leaf, a: Action) {
    match a
    case Begin(b, swept) => s.phase.Idle? && EndsWith(b.name, PARQUET)
    case WriteStaged => s.phase.Writing?
    case Rename(target) => s.phase.Staged? && Chosen(Directory(s), s.phase.batch.name, target)
    case SyncDirectory => s.phase.Renamed?
    case Append => s.phase.Durable?
    case StopWriting(_) => s.phase.Writing?
    case StopStaged => s.phase.Staged?
    case StopRenamed(_) => s.phase.Renamed?
    case StopAppending(_) => s.phase.Durable?
    case CutPower(_) => s.index.Some? && !s.synced
  }

  function Turn(hash: Bytes -> Digest, s: Leaf, a: Action): Leaf
    requires Possible(s, a)
  {
    match a
    case Begin(b, swept) => s.(staging := s.staging - swept, phase := Writing(b))
    case WriteStaged =>
      s.(staging := s.staging[s.phase.batch.name := Complete(s.phase.batch)], phase := Staged(s.phase.batch))
    case Rename(target) =>
      var b := s.phase.batch;
      s.(files := s.files[target := Complete(b)], staging := s.staging - {b.name}, phase := Renamed(b, target))
    case SyncDirectory => s.(synced := true, phase := Durable(s.phase.batch, s.phase.target))
    case Append =>
      var e := EntryFor(hash, s.phase.target, s.phase.batch);
      s.(index := Some(AppendLine(Opened(s.index), e)), synced := s.index.Some? && s.synced, phase := Idle)
    case StopWriting(residue) =>
      s.(staging := if residue then s.staging[s.phase.batch.name := Partial] else s.staging, phase := Idle)
    case StopStaged => s.(phase := Idle)
    case StopRenamed(undone) =>
      s.(files := if undone then s.files - {s.phase.target} else s.files, phase := Idle)
    case StopAppending(tear) =>
      var e := EntryFor(hash, s.phase.target, s.phase.batch);
      if tear.Nothing? then s.(phase := Idle)
      else s.(index := Some(TornAppend(Opened(s.index), e, tear)), synced := s.index.Some? && s.synced, phase := Idle)
    case CutPower(undone) =>
      s.(files := if undone && s.phase.Renamed? then s.files - {s.phase.target} else s.files,
         index := None, phase := Idle)
  }

  function Step(hash: Bytes -> Digest, s: Leaf, a: Action): Leaf {
    if Possible(s, a) then Turn(hash, s, a) else s
  }

  function Run(hash: Bytes -> Digest, s: Leaf, acts: seq<Action>): Leaf {
    if acts == [] then s else Step(hash, Run(hash, s, acts[..|acts| - 1]), acts[|acts| - 1])
  }

  // ---------------------------------------------------------------------------
  // Reading
  // ---------------------------------------------------------------------------

  /** The lines a reader sees: an empty tail is no line. */
  function Lines(ix: Index): seq<Line> {
    ix.lines + if ix.open == [] then [] else [ix.open]
  }

  predicate Parses(line: Line) {
    |line| == 1 && line[0].Whole?
  }

  function Entries(lines: seq<Line>): seq<Entry> {
    if lines == [] then []
    else
      var line := lines[|lines| - 1];
      Entries(lines[..|lines| - 1]) + if Parses(line) then [line[0].entry] else []
  }

  /** Lines that hold something and do not parse. */
  function Torn(lines: seq<Line>): nat {
    if lines == [] then 0
    else
      var line := lines[|lines| - 1];
      Torn(lines[..|lines| - 1]) + if line != [] && !Parses(line) then 1 else 0
  }

  function Listed(s: Leaf): set<Name> {
    if s.index.None? then {} else set e | e in Entries(Lines(s.index.value)) :: e.filename
  }

  function Present(s: Leaf): set<Name> {
    set n | n in s.files && EndsWith(n, PARQUET)
  }

  /** `pending_files`: on a leaf without an index nothing is pending. */
  function Pending(s: Leaf): set<Name> {
    if s.index.None? then {} else Present(s) - Listed(s)
  }

  // ---------------------------------------------------------------------------
  // The object
  // ---------------------------------------------------------------------------

  class LeafStore {
    const hash: Bytes -> Digest
    var files: map<Name, File>
    var staging: map<Name, File>
    var index: Option<Index>
    var synced: bool

    /** The leaf as a reader or a restart finds it. */
    function View(): Leaf
      reads this
    {
      Leaf(files, staging, index, synced, Idle)
    }

    constructor (hash: Bytes -> Digest)
      ensures this.hash == hash && View() == Leaf(map[], map[], None, false, Idle)
    {
      this.hash := hash;
      files, staging, index, synced := map[], map[], None, false;
    }

    /** `persist_leaf` when nothing stops it: the five steps in order. */
    method Persist(batch: Batch) returns (target: Name)
      requires EndsWith(batch.name, PARQUET)
      modifies this
      ensures View() == Run(hash, old(View()),
                            [Begin(batch, old(staging.Keys)), WriteStaged, Rename(target), SyncDirectory, Append])
      ensures target !in old(files)
    {
      ghost var s := View();
      SweepStaging();
      staging := staging[batch.name := Complete(batch)];
      target := FinalizeInto(batch);
      AppendEntry(EntryFor(hash, target, batch));
      assert View() == Leaf(s.files[target := Complete(batch)], map[],
                            Some(AppendLine(Opened(s.index), EntryFor(hash, target, batch))), s.index.Some?, Idle);
      FiveSteps(hash, s, batch, target);
    }

    method SweepStaging()
      modifies `staging
      ensures staging == map[]
    {
      while staging != map[]
        decreases staging.Keys
      {
        var name :| name in staging;
        staging := staging - {name};
      }
    }

    method FinalizeInto(batch: Batch) returns (target: Name)
      requires batch.name in staging
      modifies `files, `staging, `synced
      ensures Chosen(Directory(old(View())), batch.name, target) && synced
      ensures files == old(files)[target := old(staging)[batch.name]] && staging == old(staging) - {batch.name}
    {
      target := UniquePath(Directory(View()), batch.name);
      files := files[target := staging[batch.name]];
      staging := staging - {batch.name};
      synced := true;
    }

    /** A file that is created here is not yet in the synced directory. */
    method AppendEntry(e: Entry)
      modifies `index, `synced
      ensures index == Some(AppendLine(Opened(old(index)), e)) && synced == (old(index).Some? && old(synced))
    {
      synced := index.Some? && synced;
      index := Some(AppendLine(Opened(index), e));
    }

    method ReadIndex() returns (entries: seq<Entry>, torn: nat)
      ensures index.None? ==> entries == [] && torn == 0
      ensures index.Some? ==> entries == Entries(Lines(index.value)) && torn == Torn(Lines(index.value))
    {
      entries, torn := [], 0;
      if index.None? {
        return;
      }
      var lines := Lines(index.value);
      for i := 0 to |lines|
        invariant entries == Entries(lines[..i]) && torn == Torn(lines[..i])
      {
        assert lines[..i + 1][..i] == lines[..i];
        if lines[i] == [] {
          continue;
        }
        if Parses(lines[i]) {
          entries := entries + [lines[i][0].entry];
        } else {
          torn := torn + 1;
        }
      }
      assert lines[..|lines|] == lines;
    }

    method PendingFiles() returns (pending: set<Name>)
      ensures pending == Pending(View())
    {
      pending := {};
      if index.None? {
        return;
      }
      var entries, _ := ReadIndex();
      var listed := set e | e in entries :: e.filename;
      var rest := files.Keys;
      while rest != {}
        invariant rest <= files.Keys
        invariant pending == set n | n in files && n !in rest && EndsWith(n, PARQUET) && n !in listed
        decreases rest
      {
        var name :| name in rest;
        rest := rest - {name};
        if EndsWith(name, PARQUET) && name !in listed {
          pending := pending + {name};
        }
      }
    }
  }

  lemma FiveSteps(hash: Bytes -> Digest, s: Leaf, b: Batch, target: Name)
    requires s.phase.Idle? && EndsWith(b.name, PARQUET) && Chosen(Directory(s), b.name, target)
    ensures Run(hash, s, [Begin(b, s.staging.Keys), WriteStaged, Rename(target), SyncDirectory, Append])
            == Leaf(s.files[target := Complete(b)], map[],
                    Some(AppendLine(Opened(s.index), EntryFor(hash, target, b))), s.index.Some?, Idle)
  {
    FirstThree(hash, s, b, target);
    RunFive(hash, s, Begin(b, s.staging.Keys), WriteStaged, Rename(target), SyncDirectory, Append);
  }

  lemma FirstThree(hash: Bytes -> Digest, s: Leaf, b: Batch, target: Name)
    requires s.phase.Idle? && EndsWith(b.name, PARQUET) && Chosen(Directory(s), b.name, target)
    ensures Step(hash, Step(hash, Step(hash, s, Begin(b, s.staging.Keys)), WriteStaged), Rename(target))
            == Leaf(s.files[target := Complete(b)], map[], s.index, s.synced, Renamed(b, target))
  {
    var s1 := s.(staging := map[], phase := Writing(b));
    var s2 := s1.(staging := map[b.name := Complete(b)], phase := Staged(b));
    var s3 := s2.(files := s.files[target := Complete(b)], staging := map[], phase := Renamed(b, target));
    assert s.staging - s.staging.Keys == map[];
    assert Step(hash, s, Begin(b, s.staging.Keys)) == s1;
    assert Step(hash, s1, WriteStaged) == s2;
    assert Step(hash, s2, Rename(target)) == s3 by {
      assert Directory(s2) == Directory(s);
      assert s2.staging - {b.name} == map[];
    }
  }

  lemma RunFive(hash: Bytes -> Digest, s: Leaf, a: Action, b: Action, c: Action, d: Action, e: Action)
    ensures Run(hash, s, [a, b, c, d, e])
            == Step(hash, Step(hash, Step(hash, Step(hash, Step(hash, s, a), b), c), d), e)
  {
    RunSnoc(hash, s, [], a);
    assert [] + [a] == [a];
    RunSnoc(hash, s, [a], b);
    assert [a] + [b] == [a, b];
    RunSnoc(hash, s, [a, b], c);
    assert [a, b] + [c] == [a, b, c];
    RunSnoc(hash, s, [a, b, c], d);
    assert [a, b, c] + [d] == [a, b, c, d];
    RunSnoc(hash, s, [a, b, c, d], e);
    assert [a, b, c, d] + [e] == [a, b, c, d, e];
  }

  lemma RunSnoc(hash: Bytes -> Digest, s: Leaf, acts: seq<Action>, a: Action)
    ensures Run(hash, s, acts + [a]) == Step(hash, Run(hash, s, acts), a)
  {
    assert (acts + [a])[..|acts|] == acts;
  }
}
