/**
 What one frame does to a book, said of the frame and the book alone: when it is accepted, what a
 snapshot loads, what a full refresh leaves.
 */
module ReconstructionLaws {
  import opened Wrappers
  import opened Levels
  import opened Reconstruction

  /** Write i is the last of a snapshot to give the level a positive size. */
  ghost predicate LastPositive(ws: seq<Write>, k: Key, i: int) {
    0 <= i < |ws| && ws[i].key == k && ws[i].size > 0.0
    && forall j | i < j < |ws| :: ws[j].key == k ==> ws[j].size <= 0.0
  }

  /**
   A snapshot holds, at each level, the last positive size it gives; a level it gives none is absent,
   and a size of zero behind a positive one does not take it away.
   */
  lemma {:induction false} LoadMeans(ws: seq<Write>, k: Key)
    ensures forall i | LastPositive(ws, k, i) :: k in Load(ws) && Load(ws)[k] == ws[i].size
    ensures (forall i | 0 <= i < |ws| :: ws[i].key == k ==> ws[i].size <= 0.0) ==> k !in Load(ws)
  {
    if ws != [] {
      var n := |ws| - 1;
      var init := ws[..n];
      LoadMeans(init, k);
      forall i | LastPositive(ws, k, i)
        ensures k in Load(ws) && Load(ws)[k] == ws[i].size
      {
        if i < n {
          assert LastPositive(init, k, i) && init[i] == ws[i];
        }
      }
    }
  }

  /** Write i is the last of a delta to name the level. */
  ghost predicate LastWrite(ws: seq<Write>, k: Key, i: int) {
    0 <= i < |ws| && ws[i].key == k && forall j | i < j < |ws| :: ws[j].key != k
  }

  /** A delta leaves, at each level it names, the last size it gives, or nothing for zero; others stay. */
  lemma {:induction false} OverlayMeans(b: Book, ws: seq<Write>, k: Key)
    ensures forall i | LastWrite(ws, k, i) ::
              (k in Overlay(b, ws) <==> ws[i].size != 0.0) && (k in Overlay(b, ws) ==> Overlay(b, ws)[k] == ws[i].size)
    ensures (forall i | 0 <= i < |ws| :: ws[i].key != k) ==>
              (k in Overlay(b, ws) <==> k in b) && (k in b ==> Overlay(b, ws)[k] == b[k])
  {
    if ws != [] {
      var n := |ws| - 1;
      var init := ws[..n];
      OverlayMeans(b, init, k);
      forall i | LastWrite(ws, k, i)
        ensures k in Overlay(b, ws) <==> ws[i].size != 0.0
        ensures k in Overlay(b, ws) ==> Overlay(b, ws)[k] == ws[i].size
      {
        if i < n {
          assert LastWrite(init, k, i) && init[i] == ws[i];
        }
      }
    }
  }

  /** The continuity a venue's ids show between a book's id and a delta. */
  ghost predicate Follows(p: SeqPredicate, last: nat, d: Delta) {
    && (p == RangeInclusive ==> d.sequence <= last + 1 && last < d.updateId)
    && (p == ExactPrev ==> d.sequence == last)
    && (p == Monotonic ==> last < d.updateId)
  }

  /**
   A sequenced delta is accepted if and only if a snapshot was taken, it follows the book's id, it parses,
   and the book it leaves is not crossed. Accepted, it is laid over the levels and moves the id; refused
   for its id, it changes nothing but the state.
   */
  lemma DeltaIsAcceptedIff(p: SeqPredicate, source: SnapshotSource, b: Sourced, d: Delta)
    requires !d.isSnapshot
    ensures var r := ApplyDelta(SeqDelta(p, source), b, d); var after := Overlay(b.levels, ReadPrefix(d.levels));
            && (r.out != ResyncNeeded <==> b.last.Some? && b.initialized && Follows(p, b.last.value, d)
                                           && WellFormed(d.levels) && !Crossed(after))
            && (r.out != ResyncNeeded ==>
                  r == Outcome(b.(levels := after, last := Some(d.updateId), state := Synced), Applied))
            && (r.out == ResyncNeeded ==> r.book.state == Gapped)
            && (b.last.None? || !Follows(p, b.last.value, d) ==> r.book == b.(state := Gapped))
  {}

  /**
   A sequenced snapshot is accepted if and only if it parses and is not crossed; whatever the book held,
   its levels are then the snapshot's and its id is the snapshot's.
   */
  lemma SnapshotIsAcceptedIff(p: SeqPredicate, source: SnapshotSource, b: Sourced, d: Delta)
    requires d.isSnapshot
    ensures var r := ApplyDelta(SeqDelta(p, source), b, d); var loaded := Load(ReadPrefix(d.levels));
            && (r.out != ResyncNeeded <==> WellFormed(d.levels) && !Crossed(loaded))
            && (r.out != ResyncNeeded ==>
                  && r.out == Snapshot && r.book.state == Synced
                  && r.book == b.(levels := loaded, initialized := true, last := Some(d.updateId), state := Synced))
  {}

  /**
   A full-refresh venue: every frame, flagged or not, replaces the whole book, at any id and after any
   history, and is refused only when it does not parse or is crossed.
   */
  lemma FullRefreshReplaces(b: Sourced, d: Delta)
    ensures var r := ApplyDelta(FullRefresh, b, d); var loaded := Load(ReadPrefix(d.levels));
            && (r.out != ResyncNeeded <==> WellFormed(d.levels) && !Crossed(loaded))
            && r.book.levels == loaded
            && (r.out != ResyncNeeded ==>
                  r.out == Snapshot && r.book.initialized && r.book.last == Some(d.updateId) && r.book.state == Synced)
            && r == ApplyDelta(FullRefresh, b, d.(isSnapshot := !d.isSnapshot))
  {}
}
