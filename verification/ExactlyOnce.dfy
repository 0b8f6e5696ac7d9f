/** The crawl loop with failing commits and failing fetches, over a chain of metadata
    events: windows are processed again and again, and the DDO store ends as if each log
    had been processed once. */
module ExactlyOnce {
  import opened Options
  import opened Documents
  import DdoDatabases
  import opened Processors
  import opened ChainLogs
  import opened Redelivery
  import opened RedeliveredWindows
  import opened Crawlers
  import opened CrawlerRuns

  // ---------- one window ----------

  /** A DDO that no block of the range changes. */
  ghost predicate Settled(ix: Indexing, chain: Chain, did: string, lo: int, hi: int, ddo: Ddo) {
    forall n :: lo < n <= hi ==> FoldOne(ix, did, Some(ddo), chain(n)) == Some(ddo)
  }

  /** What the store can hold for a DID while windows of (lo, hi] are delivered. */
  ghost predicate Deliverable(ix: Indexing, chain: Chain, did: string, lo: int, hi: int, ddo: Option<Ddo>) {
    || (Sleeps(chain, ddo, lo, hi) && SafeSchedule(ix, chain, did, WakingKinds(ddo), lo, hi))
    || (ddo.Some? && (Agrees(ix, chain, did, lo, hi, ddo.value) || Settled(ix, chain, did, lo, hi, ddo.value)))
  }

  lemma DeliverableLater(ix: Indexing, chain: Chain, did: string, lo: int, later: int, hi: int, ddo: Option<Ddo>)
    requires lo <= later <= hi && Deliverable(ix, chain, did, lo, hi, ddo)
    ensures Deliverable(ix, chain, did, later, hi, ddo)
  {
  }

  lemma {:induction false} SettledWindow(ix: Indexing, chain: Chain, did: string, lo: int, hi: int, ddo: Ddo,
                                         from: int, end: int)
    requires lo <= from <= end <= hi && Settled(ix, chain, did, lo, hi, ddo)
    ensures FoldOne(ix, did, Some(ddo), LogsBetween(chain, from, end)) == Some(ddo)
    decreases end - from
  {
    if from == end {
    } else {
      SettledWindow(ix, chain, did, lo, hi, ddo, from, end - 1);
      FoldOneConcat(ix, did, Some(ddo), LogsBetween(chain, from, end - 1), chain(end));
    }
  }

  /** A DDO created where another transaction's update shares its block is not changed any
      more: no other block has a usable update. */
  lemma BornSettled(ix: Indexing, chain: Chain, did: string, kinds: set<MetadataKind>, lo: int, hi: int, b: int)
    requires 0 <= lo < b <= hi && Dated(chain, lo, hi) && MetadataCreated in kinds
    requires First(ix, chain(b), did, kinds).Some?
    requires Quiet(ix, chain, did, lo, b - 1) && Quiet(ix, chain, did, b, hi)
    ensures Settled(ix, chain, did, lo, hi, First(ix, chain(b), did, kinds).value)
  {
    var ddo := First(ix, chain(b), did, kinds).value;
    forall n | lo < n <= hi ensures FoldOne(ix, did, Some(ddo), chain(n)) == Some(ddo) {
      if n == b {
        NewbornSkipsBlock(ix, chain, did, kinds, lo, hi, b);
      } else {
        NewbornAgrees(ix, chain, did, kinds, lo, hi, b, n - 1, n);
        QuietWindow(ix, chain, did, n - 1, n, ddo);
        assert LogsBetween(chain, n - 1, n) == chain(n) by {
          assert LogsBetween(chain, n - 1, n - 1) == [];
        }
      }
    }
  }

  /** A delivered window leaves something deliverable, and a second delivery of it
      changes nothing. */
  lemma Delivery(ix: Indexing, chain: Chain, did: string, lo: int, hi: int, ddo: Option<Ddo>, end: int)
    requires 0 <= lo <= end <= hi && Dated(chain, lo, hi) && Deliverable(ix, chain, did, lo, hi, ddo)
    ensures var logs := LogsBetween(chain, lo, end);
            var once := FoldOne(ix, did, ddo, logs);
            Deliverable(ix, chain, did, lo, hi, once) && FoldOne(ix, did, once, logs) == once
  {
    hide Agrees, Settled, FoldOne, LogsBetween, First, SafeSchedule, NoUpdates, Sleeps;
    if Sleeps(chain, ddo, lo, hi) && SafeSchedule(ix, chain, did, WakingKinds(ddo), lo, hi) {
      WakingIsDeliverable(ix, chain, did, lo, hi, ddo, end);
      SafeWithin(ix, chain, did, lo, hi, ddo, end);
      DormantTwice(ix, chain, did, ddo, lo, end);
    } else if Agrees(ix, chain, did, lo, hi, ddo.value) {
      WindowSavesLeads(ix, chain, did, lo, hi, ddo.value, lo, end);
      RegisteredTwice(ix, chain, did, lo, hi, ddo.value, lo, end);
    } else {
      SettledWindow(ix, chain, did, lo, hi, ddo.value, lo, end);
    }
  }

  lemma SafeWithin(ix: Indexing, chain: Chain, did: string, lo: int, hi: int, ddo: Option<Ddo>, end: int)
    requires lo <= end <= hi && Dated(chain, lo, hi) && Sleeps(chain, ddo, lo, hi)
    requires SafeSchedule(ix, chain, did, WakingKinds(ddo), lo, hi)
    ensures Dated(chain, lo, end) && Sleeps(chain, ddo, lo, end)
    ensures SafeSchedule(ix, chain, did, WakingKinds(ddo), lo, end)
  {
  }

  lemma WakingIsDeliverable(ix: Indexing, chain: Chain, did: string, lo: int, hi: int, ddo: Option<Ddo>, end: int)
    requires 0 <= lo <= end <= hi && Dated(chain, lo, hi) && Sleeps(chain, ddo, lo, hi)
    requires SafeSchedule(ix, chain, did, WakingKinds(ddo), lo, hi)
    ensures Deliverable(ix, chain, did, lo, hi, FoldOne(ix, did, ddo, LogsBetween(chain, lo, end)))
  {
    hide Agrees, Settled, FoldOne, LogsBetween, First, NoUpdates, HasOtherUpdate;
    var kinds := WakingKinds(ddo);
    SafeWithin(ix, chain, did, lo, hi, ddo, end);
    var waking := FirstWaking(ix, chain, did, ddo, lo, end);
    if waking.Some? {
      var b := waking.value;
      var born := Waking(ix, chain, did, ddo, b).value;
      QuietBeforeWaking(ix, chain, did, ddo, lo, hi, b);
      FoldSplit(ix, chain, did, ddo, lo, b, end);
      if HasOtherUpdate(ix, chain(b), did, kinds) {
        assert Dated(chain, b, hi);
        NoUpdatesIsQuiet(ix, chain, did, b, hi);
        BornSettled(ix, chain, did, kinds, lo, hi, b);
        SettledWindow(ix, chain, did, lo, hi, born, b, end);
      } else {
        NewbornAgrees(ix, chain, did, kinds, lo, hi, b, lo, hi);
        WindowSavesLeads(ix, chain, did, lo, hi, born, b, end);
      }
    }
  }

  /** After a delivered window, delivering the end of it once more changes nothing. */
  lemma SuffixTwice(ix: Indexing, chain: Chain, did: string, lo: int, hi: int, ddo: Option<Ddo>, m: int, end: int)
    requires 0 <= lo <= m <= end <= hi && Dated(chain, lo, hi) && Deliverable(ix, chain, did, lo, hi, ddo)
    ensures var once := FoldOne(ix, did, ddo, LogsBetween(chain, lo, end));
            FoldOne(ix, did, once, LogsBetween(chain, m, end)) == once
  {
    hide Deliverable, FoldOne, LogsBetween;
    var half := FoldOne(ix, did, ddo, LogsBetween(chain, lo, m));
    Delivery(ix, chain, did, lo, hi, ddo, m);
    DeliverableLater(ix, chain, did, lo, m, hi, half);
    assert Dated(chain, m, hi);
    Delivery(ix, chain, did, m, hi, half, end);
    FoldSplit(ix, chain, did, ddo, lo, m, end);
  }

  // ---------- runs ----------

  /** Reads and handlers work, no reset takes place, and no height is beyond `hi`. */
  predicate FetchesAndCommitsFail(conf: Settings, rounds: seq<Round>, hi: int) {
    forall i :: 0 <= i < |rounds| ==>
      rounds[i].readOk && rounds[i].throwsAt.None? && !Resets(conf, rounds[i]) && rounds[i].height <= hi
  }

  ghost predicate MetadataChain(chain: Chain, lo: int, hi: int) {
    forall b :: lo < b <= hi ==> OnlyMetadata(chain(b))
  }

  lemma {:induction false} WindowIsMetadata(chain: Chain, lo: int, hi: int, from: int, end: int)
    requires lo <= from <= end <= hi && MetadataChain(chain, lo, hi)
    ensures OnlyMetadata(LogsBetween(chain, from, end))
    decreases end - from
  {
    if from == end {
    } else {
      WindowIsMetadata(chain, lo, hi, from, end - 1);
      var front := LogsBetween(chain, from, end - 1);
      forall i | 0 <= i < |front + chain(end)|
        ensures (front + chain(end))[i].MetadataLog? || (front + chain(end))[i].OtherLog?
      {
        if i >= |front| {
          assert (front + chain(end))[i] == chain(end)[i - |front|];
        }
      }
    }
  }

  /** The furthest block that any window brought logs from, or was committed to. */
  function Furthest(start: int, windows: seq<Window>): int {
    if windows == [] then start
    else
      var rest, w := Furthest(start, windows[..|windows| - 1]), windows[|windows| - 1];
      if (w.fetched || w.committed) && w.end > rest then w.end else rest
  }

  /** Where the last window that was fetched ended. */
  function Delivered(start: int, windows: seq<Window>): int {
    if windows == [] then start
    else if windows[|windows| - 1].fetched then windows[|windows| - 1].end
    else Delivered(start, windows[..|windows| - 1])
  }

  /** Window i was committed although getLogs failed, and passes block b, which the last
      fetched window did not reach. */
  predicate Passes(start: int, windows: seq<Window>, i: int, b: int) {
    && 0 <= i < |windows| && windows[i].committed && !windows[i].fetched
    && Covers(windows[i], b) && b > Delivered(start, windows[..i])
  }

  /** No block that was fetched is passed like that: after a shorter window than the one it
      came with, it is fetched once more. */
  ghost predicate NothingPassed(start: int, windows: seq<Window>) {
    forall i, b :: Passes(start, windows, i, b) ==> !Fetched(windows, b)
  }

  /** The chain as the loop saw it: only the blocks that some window fetched. */
  function FetchedOnly(chain: Chain, windows: seq<Window>): Chain {
    b => if Fetched(windows, b) then chain(b) else []
  }

  /** A chain that has what the fetched windows brought, and nothing in passed blocks. */
  ghost predicate Sees(start: int, windows: seq<Window>, chain: Chain, seen: Chain) {
    && (forall i, b :: 0 <= i < |windows| && windows[i].fetched && Covers(windows[i], b) ==> seen(b) == chain(b))
    && (forall i, b :: Passes(start, windows, i, b) ==> seen(b) == [])
  }

  /** Some blocks of the chain, as they are. */
  ghost predicate Thinned(chain: Chain, seen: Chain, lo: int, hi: int) {
    forall b :: lo < b <= hi ==> seen(b) == chain(b) || seen(b) == []
  }

  lemma ThinnedIsDated(chain: Chain, seen: Chain, lo: int, hi: int)
    requires Thinned(chain, seen, lo, hi) && Dated(chain, lo, hi) && MetadataChain(chain, lo, hi)
    ensures Dated(seen, lo, hi) && MetadataChain(seen, lo, hi)
  {
    hide InBlock, Decoded, OnlyMetadata;
    forall b | lo < b <= hi ensures InBlock(seen(b), b) && Decoded(seen(b)) && OnlyMetadata(seen(b)) {
      if seen(b) == [] {
        NothingIsDecoded(b);
      }
    }
    assert forall b, tx :: lo < b <= hi && Mentions(seen(b), tx) ==> Mentions(chain(b), tx);
  }

  lemma NothingIsDecoded(b: int)
    ensures InBlock([], b) && Decoded([]) && OnlyMetadata([])
  {
  }

  lemma {:induction false} SameLogs(chain: Chain, seen: Chain, lo: int, hi: int)
    requires forall b :: lo < b <= hi ==> seen(b) == chain(b)
    ensures LogsBetween(seen, lo, hi) == LogsBetween(chain, lo, hi)
    decreases hi - lo
  {
    if hi <= lo {
    } else {
      SameLogs(chain, seen, lo, hi - 1);
    }
  }

  lemma {:induction false} NoLogs(seen: Chain, lo: int, hi: int)
    requires forall b :: lo < b <= hi ==> seen(b) == []
    ensures LogsBetween(seen, lo, hi) == []
    decreases hi - lo
  {
    if hi <= lo {
    } else {
      NoLogs(seen, lo, hi - 1);
    }
  }

  /** How far the blocks from the position on are in the store: to the end of the last
      fetched window, or not beyond the position at all. */
  function Reached(conf: Settings, s: State, after: State): int {
    var delivered := Delivered(Position(conf, s), after.windows);
    if delivered < Position(conf, after) then Position(conf, after) else delivered
  }

  /** What holds for a DID after any number of rounds: delivering the blocks from the
      position, or from any later block reached, to any block not short of the furthest
      one gives what delivering all blocks once to the original document gives. */
  ghost predicate OnTrack(conf: Settings, seen: Chain, s: State, after: State, did: string, hi: int) {
    var start, position := Position(conf, s), Position(conf, after);
    var original, now := Lookup(s.stores.docs, did), Lookup(after.stores.docs, did);
    && Idle(after) && 0 < after.chunk && start <= position <= hi
    && Deliverable(conf.ix, seen, did, position, hi, now)
    && Reached(conf, s, after) <= Furthest(start, after.windows)
    && forall m, end :: position <= m <= Reached(conf, s, after) && Furthest(start, after.windows) <= end <= hi ==>
      (FoldOne(conf.ix, did, now, LogsBetween(seen, m, end))
       == FoldOne(conf.ix, did, original, LogsBetween(seen, start, end)))
  }

  lemma SeesBefore(start: int, windows: seq<Window>, w: Window, chain: Chain, seen: Chain)
    requires Sees(start, windows + [w], chain, seen)
    ensures Sees(start, windows, chain, seen)
  {
    var all := windows + [w];
    forall i, b | 0 <= i < |windows| && windows[i].fetched && Covers(windows[i], b) ensures seen(b) == chain(b) {
      assert all[i] == windows[i];
    }
    forall i, b | Passes(start, windows, i, b) ensures seen(b) == [] {
      assert all[i] == windows[i] && all[..i] == windows[..i];
      assert Passes(start, all, i, b);
    }
  }

  lemma {:induction false} StaysOnTrack(conf: Settings, seen: Chain, s: State, rounds: seq<Round>, did: string, hi: int)
    requires 0 <= conf.start && 0 < conf.chunkSize && 0 < s.chunk && Idle(s) && s.windows == []
    requires Position(conf, s) <= hi && Dated(seen, Position(conf, s), hi)
    requires MetadataChain(seen, Position(conf, s), hi)
    requires Sees(Position(conf, s), Run(conf, s, rounds).windows, conf.chain, seen)
    requires FetchesAndCommitsFail(conf, rounds, hi)
    requires Deliverable(conf.ix, seen, did, Position(conf, s), hi, Lookup(s.stores.docs, did))
    ensures OnTrack(conf, seen, s, Run(conf, s, rounds), did, hi)
  {
    hide Step, Deliverable, Dated, MetadataChain, Sees, Crawls;
    if rounds == [] {
    } else {
      var front, r := rounds[..|rounds| - 1], rounds[|rounds| - 1];
      var before, after := Run(conf, s, front), Run(conf, s, rounds);
      PositiveChunk(conf, s, front);
      RoundEffect(conf, before, r);
      if Crawls(conf, before, r) {
        var w := Window(Position(conf, before), WindowEnd(conf, before, r), r.fetchOk, r.commitOk, None);
        SeesBefore(Position(conf, s), before.windows, w, conf.chain, seen);
        StaysOnTrack(conf, seen, s, front, did, hi);
        if r.fetchOk {
          FetchedRound(conf, seen, s, before, r, did, hi);
        } else {
          FailedRound(conf, seen, s, before, r, did, hi);
        }
      } else {
        StaysOnTrack(conf, seen, s, front, did, hi);
        IdleRound(conf, before, r);
      }
    }
  }

  lemma {:induction false} PositiveChunk(conf: Settings, s: State, rounds: seq<Round>)
    requires 0 <= conf.start && 0 < conf.chunkSize && 0 < s.chunk && Idle(s)
    requires forall i :: 0 <= i < |rounds| ==> rounds[i].readOk
    ensures Idle(Run(conf, s, rounds)) && 0 < Run(conf, s, rounds).chunk
  {
    hide Step;
    if rounds == [] {
    } else {
      PositiveChunk(conf, s, rounds[..|rounds| - 1]);
      RoundEffect(conf, Run(conf, s, rounds[..|rounds| - 1]), rounds[|rounds| - 1]);
    }
  }

  lemma IdleRound(conf: Settings, s: State, r: Round)
    requires Idle(s) && !Resets(conf, r) && !Crawls(conf, s, r)
    ensures var after := Step(conf, s, r);
            Idle(after) && after == s.(reindex := after.reindex)
  {
  }

  /** What a round without throwing handlers does to the stores. */
  lemma RoundDelivers(conf: Settings, s: State, r: Round)
    requires r.readOk && r.throwsAt.None? && !Resets(conf, r) && Idle(s) && Crawls(conf, s, r)
    ensures Step(conf, s, r).stores
         == if r.fetchOk
            then ProcessLogs(conf.ix, s.stores, LogsBetween(conf.chain, Position(conf, s), WindowEnd(conf, s, r)))
            else s.stores
    ensures WindowEnd(conf, s, r) <= r.height
  {
    assert ProcessLogs(conf.ix, s.stores, []) == s.stores;
  }

  lemma WindowsSnoc(start: int, windows: seq<Window>, w: Window)
    ensures Furthest(start, windows + [w])
         == if (w.fetched || w.committed) && w.end > Furthest(start, windows) then w.end else Furthest(start, windows)
    ensures Delivered(start, windows + [w]) == if w.fetched then w.end else Delivered(start, windows)
  {
    assert (windows + [w])[..|windows + [w]| - 1] == windows;
  }

  /** A fetched window: it is delivered, whatever was delivered of it before. */
  lemma FetchedRound(conf: Settings, seen: Chain, s: State, before: State, r: Round, did: string, hi: int)
    requires 0 <= conf.start && 0 < conf.chunkSize
    requires 0 <= Position(conf, s) <= hi && Dated(seen, Position(conf, s), hi)
    requires MetadataChain(seen, Position(conf, s), hi)
    requires FetchesAndCommitsFail(conf, [r], hi) && Crawls(conf, before, r) && r.fetchOk
    requires Sees(Position(conf, s), Step(conf, before, r).windows, conf.chain, seen)
    requires OnTrack(conf, seen, s, before, did, hi)
    ensures OnTrack(conf, seen, s, Step(conf, before, r), did, hi)
  {
    hide Step, WindowEnd, FoldOne, LogsBetween, Deliverable, Furthest, Delivered, Dated, MetadataChain, Crawls;
    hide Position;
    assert r == [r][0];
    var ix, after := conf.ix, Step(conf, before, r);
    var start, position, end := Position(conf, s), Position(conf, before), WindowEnd(conf, before, r);
    var original, now := Lookup(s.stores.docs, did), Lookup(before.stores.docs, did);
    var w := Window(position, end, true, r.commitOk, None);
    RoundEffect(conf, before, r);
    RoundDelivers(conf, before, r);
    WindowsSnoc(start, before.windows, w);
    assert after.windows[|before.windows|] == w;
    SameLogs(conf.chain, seen, position, end);
    var next := Lookup(after.stores.docs, did);
    assert next == FoldOne(ix, did, now, LogsBetween(seen, position, end)) by {
      WindowIsMetadata(seen, start, hi, position, end);
      StoreIsFoldPerDid(ix, before.stores, LogsBetween(seen, position, end), did);
    }
    DatedLater(seen, start, position, hi);
    Delivery(ix, seen, did, position, hi, now, end);
    DeliverableLater(ix, seen, did, position, Position(conf, after), hi, next);
    forall m, e | Position(conf, after) <= m <= end && Furthest(start, after.windows) <= e <= hi
      ensures FoldOne(ix, did, next, LogsBetween(seen, m, e)) == FoldOne(ix, did, original, LogsBetween(seen, start, e))
    {
      SuffixTwice(ix, seen, did, position, hi, now, m, end);
      FoldSplit(ix, seen, did, next, m, end, e);
      FoldSplit(ix, seen, did, now, position, end, e);
    }
  }

  lemma DatedLater(chain: Chain, lo: int, later: int, hi: int)
    requires lo <= later && Dated(chain, lo, hi)
    ensures Dated(chain, later, hi)
  {
  }

  /** A failed window: the documents stay, and if it is committed nothing is passed that
      would have to be delivered again. */
  lemma FailedRound(conf: Settings, seen: Chain, s: State, before: State, r: Round, did: string, hi: int)
    requires 0 <= conf.start && 0 < conf.chunkSize
    requires FetchesAndCommitsFail(conf, [r], hi) && Crawls(conf, before, r) && !r.fetchOk
    requires Sees(Position(conf, s), Step(conf, before, r).windows, conf.chain, seen)
    requires OnTrack(conf, seen, s, before, did, hi)
    ensures OnTrack(conf, seen, s, Step(conf, before, r), did, hi)
  {
    hide Step, WindowEnd, FoldOne, LogsBetween, Deliverable, Furthest, Delivered, Crawls;
    hide Position;
    assert r == [r][0];
    var ix, after := conf.ix, Step(conf, before, r);
    var start, position, end := Position(conf, s), Position(conf, before), WindowEnd(conf, before, r);
    var original, now := Lookup(s.stores.docs, did), Lookup(before.stores.docs, did);
    var w := Window(position, end, false, r.commitOk, None);
    RoundEffect(conf, before, r);
    RoundDelivers(conf, before, r);
    WindowsSnoc(start, before.windows, w);
    if r.commitOk {
      var reached := Reached(conf, s, before);
      var i := |before.windows|;
      assert after.windows[i] == w && after.windows[..i] == before.windows;
      forall b | reached < b <= end ensures seen(b) == [] {
        assert Passes(start, after.windows, i, b);
      }
      DeliverableLater(ix, seen, did, position, end, hi, now);
      forall m, e | end <= m <= Reached(conf, s, after) && Furthest(start, after.windows) <= e <= hi
        ensures FoldOne(ix, did, now, LogsBetween(seen, m, e))
             == FoldOne(ix, did, original, LogsBetween(seen, start, e))
      {
        if m > reached {
          NoLogs(seen, reached, end);
          FoldSplit(ix, seen, did, now, reached, end, e);
          FoldNothing(ix, did, now);
        }
      }
    }
  }

  lemma FoldNothing(ix: Indexing, did: string, ddo: Option<Ddo>)
    ensures FoldOne(ix, did, ddo, []) == ddo
  {
  }

  /** A DID as the store may have it before the run: without an active document, with a
      safe schedule; registered by an older block; or without events in the range. */
  ghost predicate Ready(ix: Indexing, chain: Chain, did: string, lo: int, hi: int, ddo: Option<Ddo>) {
    || (Sleeps(chain, ddo, lo, hi) && SafeSchedule(ix, chain, did, WakingKinds(ddo), lo, hi))
    || (ddo.Some? && Registered(ddo.value) && ddo.value.event.value.block <= lo
        && forall b :: lo < b <= hi ==> !Mentions(chain(b), ddo.value.event.value.tx))
    || forall b, i :: lo < b <= hi && 0 <= i < |chain(b)| ==> !About(chain(b)[i], did)
  }

  lemma {:induction false} OthersLogs(ix: Indexing, did: string, ddo: Option<Ddo>, logs: seq<Log>)
    requires forall i :: 0 <= i < |logs| ==> !About(logs[i], did)
    ensures FoldOne(ix, did, ddo, logs) == ddo
    decreases |logs|
  {
    if logs == [] {
    } else {
      OthersLogs(ix, did, ddo, logs[1..]);
    }
  }

  lemma ReadyIsDeliverable(ix: Indexing, chain: Chain, did: string, lo: int, hi: int, ddo: Option<Ddo>)
    requires Ready(ix, chain, did, lo, hi, ddo)
    ensures Deliverable(ix, chain, did, lo, hi, ddo)
  {
    if forall b, i :: lo < b <= hi && 0 <= i < |chain(b)| ==> !About(chain(b)[i], did) {
      if ddo.Some? {
        forall n | lo < n <= hi ensures FoldOne(ix, did, ddo, chain(n)) == ddo {
          OthersLogs(ix, did, ddo, chain(n));
        }
      } else {
        assert forall b, kind :: lo < b <= hi ==> !Has(ix, chain(b), did, kind);
        assert forall b :: lo < b <= hi ==> !HasOtherUpdate(ix, chain(b), did, {MetadataCreated});
      }
    }
  }

  lemma ThinnedIsReady(ix: Indexing, chain: Chain, seen: Chain, did: string, lo: int, hi: int, ddo: Option<Ddo>)
    requires Thinned(chain, seen, lo, hi) && Ready(ix, chain, did, lo, hi, ddo)
    ensures Ready(ix, seen, did, lo, hi, ddo)
  {
    hide Heeded, OtherUpdate, About;
    assert forall b, tx :: lo < b <= hi && Mentions(seen(b), tx) ==> Mentions(chain(b), tx);
    assert forall b, kind :: lo < b <= hi && Has(ix, seen(b), did, kind) ==> Has(ix, chain(b), did, kind);
    assert forall b, kinds :: lo < b <= hi && HasOtherUpdate(ix, seen(b), did, kinds) ==>
             HasOtherUpdate(ix, chain(b), did, kinds);
  }

  /** However often commits and fetches fail: once everything fetched has been committed,
      the DDO store is that of one pass over the blocks that were ever fetched, provided
      none of them was passed, after a shorter window, without being fetched again. */
  lemma FetchedIsProcessedExactlyOnce(conf: Settings, s: State, rounds: seq<Round>, hi: int)
    requires 0 <= conf.start && 0 < conf.chunkSize && 0 < s.chunk && Idle(s) && s.windows == []
    requires Position(conf, s) <= hi && Dated(conf.chain, Position(conf, s), hi)
    requires MetadataChain(conf.chain, Position(conf, s), hi)
    requires forall did :: Ready(conf.ix, conf.chain, did, Position(conf, s), hi, Lookup(s.stores.docs, did))
    requires FetchesAndCommitsFail(conf, rounds, hi)
    requires NothingPassed(Position(conf, s), Run(conf, s, rounds).windows)
    requires Furthest(Position(conf, s), Run(conf, s, rounds).windows) <= Position(conf, Run(conf, s, rounds))
    ensures var after := Run(conf, s, rounds);
            var seen := FetchedOnly(conf.chain, after.windows);
            after.stores.docs
            == ProcessLogs(conf.ix, s.stores, LogsBetween(seen, Position(conf, s), Position(conf, after))).docs
  {
    hide Dated, MetadataChain, Ready, Step, Furthest, LogsBetween, FoldOne, Deliverable, FetchesAndCommitsFail;
    var after := Run(conf, s, rounds);
    var seen := FetchedOnly(conf.chain, after.windows);
    var start, position := Position(conf, s), Position(conf, after);
    var logs := LogsBetween(seen, start, position);
    assert Sees(start, after.windows, conf.chain, seen);
    ThinnedIsDated(conf.chain, seen, start, hi);
    forall did ensures Lookup(after.stores.docs, did) == Lookup(ProcessLogs(conf.ix, s.stores, logs).docs, did) {
      ThinnedIsReady(conf.ix, conf.chain, seen, did, start, hi, Lookup(s.stores.docs, did));
      ReadyIsDeliverable(conf.ix, seen, did, start, hi, Lookup(s.stores.docs, did));
      StaysOnTrack(conf, seen, s, rounds, did, hi);
      NoLogs(seen, position, position);
      FoldNothing(conf.ix, did, Lookup(after.stores.docs, did));
      WindowIsMetadata(seen, start, hi, start, position);
      StoreIsFoldPerDid(conf.ix, s.stores, logs, did);
    }
    DdoDatabases.SameMap(after.stores.docs, ProcessLogs(conf.ix, s.stores, logs).docs);
  }

  lemma {:induction false} AllFetched(conf: Settings, s: State, rounds: seq<Round>)
    requires s.windows == [] && forall i :: 0 <= i < |rounds| ==> rounds[i].fetchOk
    ensures forall i :: 0 <= i < |Run(conf, s, rounds).windows| ==> Run(conf, s, rounds).windows[i].fetched
  {
    if rounds == [] {
    } else {
      AllFetched(conf, s, rounds[..|rounds| - 1]);
    }
  }

  /** Without failing fetches: however often commits fail, once everything delivered has
      been committed the DDO store is that of one pass over all blocks. */
  lemma MetadataIsProcessedExactlyOnce(conf: Settings, s: State, rounds: seq<Round>, hi: int)
    requires 0 <= conf.start && 0 < conf.chunkSize && 0 < s.chunk && Idle(s) && s.windows == []
    requires Position(conf, s) <= hi && Dated(conf.chain, Position(conf, s), hi)
    requires MetadataChain(conf.chain, Position(conf, s), hi)
    requires forall did :: Ready(conf.ix, conf.chain, did, Position(conf, s), hi, Lookup(s.stores.docs, did))
    requires FetchesAndCommitsFail(conf, rounds, hi) && forall i :: 0 <= i < |rounds| ==> rounds[i].fetchOk
    requires Furthest(Position(conf, s), Run(conf, s, rounds).windows) <= Position(conf, Run(conf, s, rounds))
    ensures var after := Run(conf, s, rounds);
            var logs := LogsBetween(conf.chain, Position(conf, s), Position(conf, after));
            after.stores.docs == ProcessLogs(conf.ix, s.stores, logs).docs
  {
    hide Dated, MetadataChain, Ready, Step, Furthest, LogsBetween;
    var after := Run(conf, s, rounds);
    var seen := FetchedOnly(conf.chain, after.windows);
    var start, position := Position(conf, s), Position(conf, after);
    AllFetched(conf, s, rounds);
    FetchedIsProcessedExactlyOnce(conf, s, rounds, hi);
    WindowsTile(conf, s, rounds);
    OriginStays(conf, s, rounds);
    forall b | start < b <= position ensures seen(b) == conf.chain(b) {
      TilesPartition(after.windows, start, position, b);
      var i :| CommittedOver(after.windows, i, b);
      assert after.windows[i].fetched;
    }
    SameLogs(conf.chain, seen, start, position);
  }

  lemma {:induction false} OriginStays(conf: Settings, s: State, rounds: seq<Round>)
    requires forall i :: 0 <= i < |rounds| ==> !Resets(conf, rounds[i])
    ensures Origin(conf, s, rounds) == Position(conf, s)
  {
    if rounds == [] {
    } else {
      OriginStays(conf, s, rounds[..|rounds| - 1]);
    }
  }
}
