/**
 The lifecycle states of a connection's feeds (aetelier-connect/src/framework/feed.rs) and the live
 sets that spare the runtime most of its calls to `mark_live`
 (aetelier-connect/src/framework/runtime.rs). A feed set holds one feed per pair and datatype.
 */
module FeedCache {
  import opened Wrappers

  datatype FeedState =
    | Requested
    | Subscribing
    | Live
    | Stale
    | Resubscribing
    | Reconnecting
    | Draining
    | Closed
    | Rejected
    | Failed

  datatype Datatype = Orders | Trades | FundingRates | OpenInterest

  datatype Key = Key(pair: string, channel: Datatype)

  type FeedSet = map<Key, FeedState>

  const STALE_CADENCE_MULTIPLE := 2

  predicate Terminal(s: FeedState) {
    s.Closed? || s.Rejected? || s.Failed?
  }

  predicate CanTransition(from: FeedState, to: FeedState) {
    match from
    case Requested => to.Subscribing? || to.Draining?
    case Subscribing => to.Live? || to.Resubscribing? || to.Reconnecting? || to.Draining?
    case Live => to.Stale? || to.Resubscribing? || to.Reconnecting? || to.Draining?
    case Stale => to.Live? || to.Resubscribing? || to.Reconnecting? || to.Draining?
    case Resubscribing => to.Live? || to.Reconnecting? || to.Draining?
    case Reconnecting => to.Subscribing? || to.Rejected? || to.Failed? || to.Draining?
    case Draining => to.Closed?
    case Closed | Rejected | Failed => false
  }

  function MarkLive(fs: FeedSet, k: Key): FeedSet {
    if k in fs && !Terminal(fs[k]) && !fs[k].Live? then fs[k := Live] else fs
  }

  function MarkStale(fs: FeedSet, k: Key): FeedSet {
    if k in fs && fs[k].Live? then fs[k := Stale] else fs
  }

  function MarkResubscribing(fs: FeedSet, k: Key): FeedSet {
    if k in fs && !Terminal(fs[k]) && !fs[k].Resubscribing? then fs[k := Resubscribing] else fs
  }

  /** The sweep marks each overdue key once, in any order. */
  function MarkAllStale(fs: FeedSet, keys: set<Key>): FeedSet {
    map k | k in fs :: if k in keys && fs[k].Live? then Stale else fs[k]
  }

  function Silence(now: nat, seen: nat): nat {
    if now >= seen then now - seen else 0
  }

  function Overdue(cadence: map<Datatype, nat>, lastSeen: map<Key, nat>, now: nat): set<Key> {
    set k | k in lastSeen && k.channel in cadence
            && Silence(now, lastSeen[k]) > cadence[k.channel] * STALE_CADENCE_MULTIPLE
  }

  datatype State = State(feeds: FeedSet, live: set<Key>, lastSeen: map<Key, nat>)

  datatype Event = Data(key: Key, now: nat) | Gap(pair: string) | Tick(now: nat)

  function Seen(cadence: map<Datatype, nat>, lastSeen: map<Key, nat>, k: Key, now: nat): map<Key, nat> {
    if k.channel in cadence then lastSeen[k := now] else lastSeen
  }

  /** What the runtime does: `mark_live` only on first data, or when the datatype has a cadence. */
  function Step(cadence: map<Datatype, nat>, s: State, e: Event): State {
    match e
    case Data(k, now) =>
      State(if k !in s.live || k.channel in cadence then MarkLive(s.feeds, k) else s.feeds,
            s.live + {k}, Seen(cadence, s.lastSeen, k, now))
    case Gap(pair) =>
      s.(feeds := MarkResubscribing(s.feeds, Key(pair, Orders)), live := s.live - {Key(pair, Orders)})
    case Tick(now) => s.(feeds := MarkAllStale(s.feeds, Overdue(cadence, s.lastSeen, now)))
  }

  /** The simple rule: every event marks its feed live. */
  function SimpleStep(cadence: map<Datatype, nat>, s: State, e: Event): State {
    match e
    case Data(k, now) => s.(feeds := MarkLive(s.feeds, k), lastSeen := Seen(cadence, s.lastSeen, k, now))
    case Gap(pair) => s.(feeds := MarkResubscribing(s.feeds, Key(pair, Orders)))
    case Tick(now) => s.(feeds := MarkAllStale(s.feeds, Overdue(cadence, s.lastSeen, now)))
  }

  function Run(cadence: map<Datatype, nat>, fs: FeedSet, events: seq<Event>): State {
    if events == [] then State(fs, {}, map[])
    else Step(cadence, Run(cadence, fs, events[..|events| - 1]), events[|events| - 1])
  }

  function SimpleRun(cadence: map<Datatype, nat>, fs: FeedSet, events: seq<Event>): State {
    if events == [] then State(fs, {}, map[])
    else SimpleStep(cadence, SimpleRun(cadence, fs, events[..|events| - 1]), events[|events| - 1])
  }

  // ---------------------------------------------------------------------------
  // The live sets never hide a mark
  // ---------------------------------------------------------------------------

  /** The states a runtime may find its feeds in. */
  ghost predicate Running(fs: FeedSet) {
    forall k | k in fs :: fs[k].Subscribing? || fs[k].Live? || fs[k].Stale? || fs[k].Resubscribing? || Terminal(fs[k])
  }

  /** A key in a live set needs no mark, unless its datatype is watched. */
  ghost predicate CacheIsTrue(cadence: map<Datatype, nat>, s: State) {
    forall k | k in s.live && k in s.feeds && k.channel !in cadence :: s.feeds[k].Live? || Terminal(s.feeds[k])
  }

  lemma {:induction false} CacheAgrees(cadence: map<Datatype, nat>, fs: FeedSet, events: seq<Event>)
    ensures var s, t := Run(cadence, fs, events), SimpleRun(cadence, fs, events);
            s.feeds == t.feeds && s.lastSeen == t.lastSeen && CacheIsTrue(cadence, s) && s.feeds.Keys == fs.Keys
  {
    if events != [] {
      CacheAgrees(cadence, fs, events[..|events| - 1]);
    }
  }

  // ---------------------------------------------------------------------------
  // Every edge taken is legal
  // ---------------------------------------------------------------------------

  ghost predicate LegalMove(fs: FeedSet, fs': FeedSet) {
    fs'.Keys == fs.Keys && forall k | k in fs :: fs'[k] == fs[k] || CanTransition(fs[k], fs'[k])
  }

  lemma {:induction false} RunKeepsRunning(cadence: map<Datatype, nat>, fs: FeedSet, events: seq<Event>)
    requires Running(fs)
    ensures Running(Run(cadence, fs, events).feeds)
    ensures forall k | k in fs && Terminal(fs[k]) ::
              k in Run(cadence, fs, events).feeds && Run(cadence, fs, events).feeds[k] == fs[k]
  {
    if events != [] {
      RunKeepsRunning(cadence, fs, events[..|events| - 1]);
    }
  }

  /**
   From any set of running feeds, in every run: the feed states are those of the simple rule, each
   move follows legal edges, and a terminal feed never changes.
   */
  lemma CachedFeedsAreLegal(cadence: map<Datatype, nat>, fs: FeedSet, events: seq<Event>, i: nat)
    requires Running(fs) && i < |events|
    ensures Run(cadence, fs, events[..i]).feeds == SimpleRun(cadence, fs, events[..i]).feeds
    ensures LegalMove(Run(cadence, fs, events[..i]).feeds, Run(cadence, fs, events[..i + 1]).feeds)
    ensures forall k | k in fs && Terminal(fs[k]) ::
              k in Run(cadence, fs, events[..i + 1]).feeds && Run(cadence, fs, events[..i + 1]).feeds[k] == fs[k]
  {
    CacheAgrees(cadence, fs, events[..i]);
    RunKeepsRunning(cadence, fs, events[..i]);
    RunKeepsRunning(cadence, fs, events[..i + 1]);
    assert events[..i + 1][..i] == events[..i];
  }

  /**
   The edges, by where they lead: data makes a feed live, only a live one goes stale, only a lost
   connection is given up on, every open feed may drain, and nothing leaves a terminal state.
   */
  lemma EdgesInto(s: FeedState)
    ensures !CanTransition(s, Requested)
    ensures CanTransition(s, Subscribing) <==> s == Requested || s == Reconnecting
    ensures CanTransition(s, Live) <==> s == Subscribing || s == Stale || s == Resubscribing
    ensures CanTransition(s, Stale) <==> s == Live
    ensures CanTransition(s, Resubscribing) <==> s == Subscribing || s == Live || s == Stale
    ensures CanTransition(s, Reconnecting) <==> s == Subscribing || s == Live || s == Stale || s == Resubscribing
    ensures CanTransition(s, Draining) <==> !Terminal(s) && s != Draining
    ensures CanTransition(s, Closed) <==> s == Draining
    ensures CanTransition(s, Rejected) <==> s == Reconnecting
    ensures CanTransition(s, Failed) <==> s == Reconnecting
    ensures Terminal(s) <==> s == Closed || s == Rejected || s == Failed
  {}

  /** The marks need running feeds: the first mark is legal exactly when the feed may go live. */
  lemma MarkLiveIsLegalIff(fs: FeedSet, k: Key)
    requires k in fs
    ensures LegalMove(fs, MarkLive(fs, k)) <==> !(fs[k].Requested? || fs[k].Reconnecting? || fs[k].Draining?)
  {
    var fs' := MarkLive(fs, k);
    assert forall j | j in fs && j != k :: fs'[j] == fs[j];
  }

  // ---------------------------------------------------------------------------
  // Stale means silent past the declared cadence
  // ---------------------------------------------------------------------------

  /** When the key last had data. */
  ghost function LastData(events: seq<Event>, k: Key): Option<nat> {
    if events == [] then None
    else
      var e := events[|events| - 1];
      if e.Data? && e.key == k then Some(e.now) else LastData(events[..|events| - 1], k)
  }

  /** The key is watched and was silent for more than the multiple of its cadence. */
  ghost predicate TooQuiet(cadence: map<Datatype, nat>, events: seq<Event>, k: Key, now: nat) {
    && k.channel in cadence && LastData(events, k).Some?
    && Silence(now, LastData(events, k).value) > cadence[k.channel] * 2
  }

  lemma {:induction false} SeenIsLastData(cadence: map<Datatype, nat>, fs: FeedSet, events: seq<Event>, k: Key)
    requires k.channel in cadence
    ensures var seen := Run(cadence, fs, events).lastSeen;
            if k in seen then LastData(events, k) == Some(seen[k]) else LastData(events, k) == None
  {
    if events != [] {
      SeenIsLastData(cadence, fs, events[..|events| - 1], k);
    }
  }

  /** A sweep makes a live feed stale exactly when the key has been too quiet. */
  lemma SweepIsExact(cadence: map<Datatype, nat>, fs: FeedSet, events: seq<Event>, now: nat, k: Key)
    requires k in fs
    ensures var s, s' := Run(cadence, fs, events).feeds, Run(cadence, fs, events + [Tick(now)]).feeds;
            && k in s && k in s'
            && (s[k].Live? ==> (s'[k].Stale? <==> TooQuiet(cadence, events, k, now)))
            && (s[k].Live? && !s'[k].Stale? ==> s'[k].Live?)
            && (!s[k].Live? ==> s'[k] == s[k])
  {
    CacheAgrees(cadence, fs, events);
    assert (events + [Tick(now)])[..|events|] == events;
    if k.channel in cadence {
      SeenIsLastData(cadence, fs, events, k);
    }
  }

  ghost predicate NoData(events: seq<Event>, k: Key, from: int) {
    forall i | 0 <= from <= i < |events| :: !(events[i].Data? && events[i].key == k)
  }

  /** Sweep `j` found the key too quiet and no data came since. */
  ghost predicate QuietFrom(cadence: map<Datatype, nat>, events: seq<Event>, k: Key, j: int) {
    0 <= j < |events| && events[j].Tick? && TooQuiet(cadence, events[..j], k, events[j].now) && NoData(events, k, j + 1)
  }

  ghost predicate QuietSince(cadence: map<Datatype, nat>, events: seq<Event>, k: Key) {
    exists j :: QuietFrom(cadence, events, k, j)
  }

  lemma QuietSnoc(cadence: map<Datatype, nat>, init: seq<Event>, e: Event, k: Key)
    requires QuietSince(cadence, init, k) && !(e.Data? && e.key == k)
    ensures QuietSince(cadence, init + [e], k)
  {
    var j :| QuietFrom(cadence, init, k, j);
    assert (init + [e])[..j] == init[..j];
    assert QuietFrom(cadence, init + [e], k, j);
  }

  /** A stale feed got there by a sweep that found it too quiet, and has had no data since. */
  lemma {:induction false} StaleMeansQuiet(cadence: map<Datatype, nat>, fs: FeedSet, events: seq<Event>, k: Key)
    requires k in fs && Running(fs) && !fs[k].Stale?
    ensures var s := Run(cadence, fs, events).feeds; k in s && (s[k].Stale? ==> QuietSince(cadence, events, k))
  {
    CacheAgrees(cadence, fs, events);
    if events != [] {
      var init, e := events[..|events| - 1], events[|events| - 1];
      StaleMeansQuiet(cadence, fs, init, k);
      CacheAgrees(cadence, fs, init);
      RunKeepsRunning(cadence, fs, init);
      var s, s' := Run(cadence, fs, init), Run(cadence, fs, events);
      if s'.feeds[k].Stale? {
        assert s.feeds[k].Stale? || e.Tick?;
        if s.feeds[k].Stale? {
          assert !(e.Data? && e.key == k);
          assert events == init + [e];
          QuietSnoc(cadence, init, e, k);
        } else {
          assert k in Overdue(cadence, s.lastSeen, e.now);
          SeenIsLastData(cadence, fs, init, k);
          assert QuietFrom(cadence, events, k, |init|);
        }
      }
    }
  }

  // ---------------------------------------------------------------------------
  // A feed's state, from what happened to it
  // ---------------------------------------------------------------------------

  /** The event marks the feed: its own data, or a gap of its pair's book. */
  ghost predicate Marks(e: Event, k: Key) {
    (e.Data? && e.key == k) || (e.Gap? && k.channel == Orders && k.pair == e.pair)
  }

  ghost function LastMark(events: seq<Event>, k: Key): Option<Event> {
    if events == [] then None
    else
      var e := events[|events| - 1];
      if Marks(e, k) then Some(e) else LastMark(events[..|events| - 1], k)
  }

  /** The state a feed should be in. */
  ghost predicate StateIs(cadence: map<Datatype, nat>, fs: FeedSet, events: seq<Event>, k: Key, s: FeedState)
    requires k in fs
  {
    match LastMark(events, k)
    case None => s == fs[k]
    case Some(e) =>
      if e.Gap? then s == Resubscribing
      else if QuietSince(cadence, events, k) then s == Stale
      else s == Live
  }

  lemma NoMarkNoData(events: seq<Event>, k: Key)
    ensures LastMark(events, k).None? ==> LastData(events, k).None?
  {
    if events != [] {
      NoMarkNoData(events[..|events| - 1], k);
    }
  }

  /** What a tick or another feed's event does to the question whether a feed has been quiet. */
  lemma QuietSnocIff(cadence: map<Datatype, nat>, init: seq<Event>, e: Event, k: Key)
    ensures QuietSince(cadence, init + [e], k) <==>
            !(e.Data? && e.key == k) && (QuietSince(cadence, init, k) || (e.Tick? && TooQuiet(cadence, init, k, e.now)))
  {
    var events := init + [e];
    assert events[..|init|] == init && events[|init|] == e;
    if !(e.Data? && e.key == k) {
      if QuietSince(cadence, init, k) {
        QuietSnoc(cadence, init, e, k);
      }
      if e.Tick? && TooQuiet(cadence, init, k, e.now) {
        assert QuietFrom(cadence, events, k, |init|);
      }
    }
    if QuietSince(cadence, events, k) {
      var j :| QuietFrom(cadence, events, k, j);
      if j < |init| {
        QuietBefore(cadence, init, e, k, j);
      }
    }
  }

  lemma QuietBefore(cadence: map<Datatype, nat>, init: seq<Event>, e: Event, k: Key, j: nat)
    requires j < |init| && QuietFrom(cadence, init + [e], k, j)
    ensures QuietFrom(cadence, init, k, j) && !(e.Data? && e.key == k)
  {
    var events := init + [e];
    assert events[..j] == init[..j] && events[j] == init[j] && events[|init|] == e;
    assert forall i | j < i < |init| :: events[i] == init[i];
  }

  lemma MarkSnoc(init: seq<Event>, e: Event, k: Key)
    ensures LastMark(init + [e], k) == if Marks(e, k) then Some(e) else LastMark(init, k)
  {
    assert (init + [e])[..|init|] == init;
  }

  /** One event keeps the state what it should be. */
  lemma StateStep(cadence: map<Datatype, nat>, fs: FeedSet, init: seq<Event>, e: Event, k: Key, s: State)
    requires k in fs && k in s.feeds && !Terminal(fs[k]) && Running(s.feeds) && !Terminal(s.feeds[k])
    requires CacheIsTrue(cadence, s) && StateIs(cadence, fs, init, k, s.feeds[k])
    requires k.channel in cadence ==>
               if k in s.lastSeen then LastData(init, k) == Some(s.lastSeen[k]) else LastData(init, k) == None
    ensures k in Step(cadence, s, e).feeds && StateIs(cadence, fs, init + [e], k, Step(cadence, s, e).feeds[k])
  {
    MarkSnoc(init, e, k);
    QuietSnocIff(cadence, init, e, k);
    NoMarkNoData(init, k);
  }

  /**
   A feed's state follows what happened to it. In every run from running feeds: a feed nothing has marked
   is as it was; one whose last mark is a gap of its book is resubscribing; one whose last mark is data is
   live, or stale if a sweep since then found its data more than two cadences old.
   */
  lemma {:induction false} StateFollowsMarks(cadence: map<Datatype, nat>, fs: FeedSet, events: seq<Event>, k: Key)
    requires Running(fs) && k in fs && !Terminal(fs[k])
    ensures var s := Run(cadence, fs, events).feeds;
            k in s && !Terminal(s[k]) && StateIs(cadence, fs, events, k, s[k])
  {
    if events != [] {
      var init, e := events[..|events| - 1], events[|events| - 1];
      var s := Run(cadence, fs, init);
      StateFollowsMarks(cadence, fs, init, k);
      CacheAgrees(cadence, fs, init);
      RunKeepsRunning(cadence, fs, init);
      if k.channel in cadence {
        SeenIsLastData(cadence, fs, init, k);
      }
      StateStep(cadence, fs, init, e, k, s);
      assert events == init + [e];
    }
  }

  // ---------------------------------------------------------------------------
  // The object
  // ---------------------------------------------------------------------------

  class FeedWatch {
    const cadence: map<Datatype, nat>
    var feeds: FeedSet
    var live: set<Key>
    var lastSeen: map<Key, nat>

    function View(): State
      reads this
    {
      State(feeds, live, lastSeen)
    }

    constructor (cadence: map<Datatype, nat>, feeds: FeedSet)
      ensures this.cadence == cadence && View() == State(feeds, {}, map[])
    {
      this.cadence, this.feeds, live, lastSeen := cadence, feeds, {}, map[];
    }

    method NoteLive(k: Key, now: nat)
      modifies this
      ensures View() == Step(cadence, old(View()), Data(k, now))
    {
      if k.channel in cadence {
        lastSeen := lastSeen[k := now];
      }
      var firstData := k !in live;
      live := live + {k};
      if !firstData && k.channel !in cadence {
        return;
      }
      feeds := MarkLive(feeds, k);
    }

    method NoteResubscribing(pair: string)
      modifies `feeds, `live
      ensures View() == Step(cadence, old(View()), Gap(pair))
    {
      live := live - {Key(pair, Orders)};
      feeds := MarkResubscribing(feeds, Key(pair, Orders));
    }

    method SweepStaleDatatypes(now: nat)
      modifies `feeds
      ensures View() == Step(cadence, old(View()), Tick(now))
    {
      if cadence == map[] {
        return;
      }
      ghost var before := feeds;
      var overdue := Overdue(cadence, lastSeen, now);
      ghost var marked: set<Key> := {};
      var rest := overdue;
      while rest != {}
        invariant rest + marked == overdue && rest !! marked
        invariant feeds == MarkAllStale(before, marked)
        decreases rest
      {
        var k :| k in rest;
        MarkOneMore(before, marked, k);
        feeds := MarkStale(feeds, k);
        rest, marked := rest - {k}, marked + {k};
      }
      assert marked == overdue;
    }
  }

  /** Marking one more key is the same as having had it in the set. */
  lemma MarkOneMore(fs: FeedSet, marked: set<Key>, k: Key)
    ensures MarkStale(MarkAllStale(fs, marked), k) == MarkAllStale(fs, marked + {k})
  {}
}
