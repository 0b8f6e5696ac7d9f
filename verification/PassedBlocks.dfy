/** Exactly which failing fetches lose updates, for runs with any failing fetches and commits
    and whatever the chain and the store hold. */
module PassedBlocks {
  import opened Options
  import opened Documents
  import opened Processors
  import opened ChainLogs
  import opened Redelivery
  import opened RedeliveredWindows
  import opened Crawlers
  import opened CrawlerRuns
  import opened ExactlyOnce
  import RedeliverySchedules

  /** The run ends with the documents of one pass over the blocks that were fetched. */
  ghost predicate EndsAsOnePass(conf: Settings, s: State, rounds: seq<Round>) {
    var after := Run(conf, s, rounds);
    var seen := FetchedOnly(conf.chain, after.windows);
    after.stores.docs
    == ProcessLogs(conf.ix, s.stores, LogsBetween(seen, Position(conf, s), Position(conf, after))).docs
  }

  /** A chain of metadata and a store that the run may meet. */
  ghost predicate Meets(conf: Settings, s: State, hi: int) {
    var start := Position(conf, s);
    && Dated(conf.chain, start, hi) && MetadataChain(conf.chain, start, hi)
    && forall did :: Ready(conf.ix, conf.chain, did, start, hi, Lookup(s.stores.docs, did))
  }

  function On(conf: Settings, chain: Chain): Settings {
    conf.(chain := chain)
  }

  function With(s: State, docs: map<string, Ddo>): State {
    s.(stores := s.stores.(docs := docs))
  }

  /** The run ends as one pass, whatever it meets. */
  ghost predicate AlwaysEndsAsOnePass(conf: Settings, s: State, rounds: seq<Round>, hi: int) {
    forall chain: Chain, docs: map<string, Ddo> ::
      Meets(On(conf, chain), With(s, docs), hi) ==> EndsAsOnePass(On(conf, chain), With(s, docs), rounds)
  }

  /** Windows do not depend on what is in the blocks. */
  lemma {:induction false} SameWindows(conf: Settings, s: State, rounds: seq<Round>, chain: Chain,
                                       docs: map<string, Ddo>)
    requires forall i :: 0 <= i < |rounds| ==> rounds[i].throwsAt.None?
    ensures var after, other := Run(conf, s, rounds), Run(On(conf, chain), With(s, docs), rounds);
            && after.windows == other.windows && after.last == other.last
            && after.chunk == other.chunk && after.reindex == other.reindex
  {
    hide Step;
    if rounds == [] {
    } else {
      var front := rounds[..|rounds| - 1];
      SameWindows(conf, s, front, chain, docs);
      SameWindowsStep(conf, Run(conf, s, front), On(conf, chain), Run(On(conf, chain), With(s, docs), front),
                      rounds[|rounds| - 1]);
    }
  }

  lemma SameWindowsStep(conf: Settings, s: State, other: Settings, t: State, r: Round)
    requires r.throwsAt.None? && other == conf.(chain := other.chain)
    requires s.windows == t.windows && s.last == t.last && s.chunk == t.chunk && s.reindex == t.reindex
    ensures var after, after' := Step(conf, s, r), Step(other, t, r);
            && after.windows == after'.windows && after.last == after'.last
            && after.chunk == after'.chunk && after.reindex == after'.reindex
  {
    hide ProcessLogs, LogsBetween;
  }

  // ---------- the last fetched window ----------

  function LastFetched(windows: seq<Window>): Option<Window> {
    if windows == [] then None
    else if windows[|windows| - 1].fetched then Some(windows[|windows| - 1])
    else LastFetched(windows[..|windows| - 1])
  }

  lemma {:induction false} DeliveredIsItsEnd(start: int, windows: seq<Window>)
    ensures Delivered(start, windows) == if LastFetched(windows).Some? then LastFetched(windows).value.end else start
    ensures LastFetched(windows).Some? ==> LastFetched(windows).value.fetched && LastFetched(windows).value in windows
    ensures LastFetched(windows).None? ==> forall i :: 0 <= i < |windows| ==> !windows[i].fetched
  {
    if windows == [] {
    } else {
      DeliveredIsItsEnd(start, windows[..|windows| - 1]);
    }
  }

  /** The last fetched window brought block d and did not reach block b. */
  predicate FallsBack(windows: seq<Window>, d: int, b: int) {
    LastFetched(windows).Some? && Covers(LastFetched(windows).value, d) && LastFetched(windows).value.end < b
  }

  /** Then a window passed block b. */
  predicate PassedAt(windows: seq<Window>, d: int, b: int, i: int) {
    && 0 <= i < |windows| && windows[i].committed && !windows[i].fetched && Covers(windows[i], b)
    && FallsBack(windows[..i], d, b)
  }

  /** What tiling windows leave behind a window that was committed. */
  lemma {:induction false} CommittedIsBehind(windows: seq<Window>, lo: int, hi: int, i: nat)
    requires Tiles(windows, lo, hi) && i < |windows|
    ensures lo <= windows[i].start < windows[i].end
    ensures windows[i].committed ==> windows[i].end <= hi
    ensures windows[i].committed ==> forall j :: i < j < |windows| ==> windows[i].end <= windows[j].start
  {
    var front, w := windows[..|windows| - 1], windows[|windows| - 1];
    TilesPartition(front, lo, w.start, 0);
    if i == |front| {
    } else {
      CommittedIsBehind(front, lo, w.start, i);
    }
  }

  /** A fetched block that is passed was fetched before, so the last fetched window is one. */
  lemma PassingFallsBack(start: int, windows: seq<Window>, hi: int, i: int, b: int)
    requires Tiles(windows, start, hi) && Passes(start, windows, i, b) && Fetched(windows, b)
    ensures PassedAt(windows, Delivered(start, windows[..i]), b, i)
    ensures start < Delivered(start, windows[..i])
  {
    var j :| 0 <= j < |windows| && windows[j].fetched && Covers(windows[j], b);
    CommittedIsBehind(windows, start, hi, i);
    assert j < i;
    DeliveredIsItsEnd(start, windows[..i]);
    assert windows[..i][j] == windows[j];
    var w := LastFetched(windows[..i]).value;
    var l :| 0 <= l < i && windows[l] == w;
    CommittedIsBehind(windows, start, hi, l);
  }

  // ---------- a chain and a store that show it ----------

  function UpdateLog(did: string, ddo: Ddo, tx: string, b: int): Log {
    MetadataLog(MetadataUpdated, did, true, true, Some(ddo), tx, "", "", b, None)
  }

  function UpdatesIn(did: string, ddo: Ddo, d: int, b: int, n: int): seq<Log> {
    if n == d then [UpdateLog(did, ddo, "d", d)] else if n == b then [UpdateLog(did, ddo, "b", b)] else []
  }

  /** One update in block d and one in block b. */
  function TwoUpdates(did: string, ddo: Ddo, d: int, b: int): Chain {
    n => UpdatesIn(did, ddo, d, b, n)
  }

  function Original(ddo: Ddo, start: int): Ddo {
    ddo.(event := Some(EventInfo("", "", "", start, None)))
  }

  lemma TwoUpdatesLead(ix: Indexing, did: string, ddo: Ddo, d: int, b: int, n: int)
    requires d != b && RedeliverySchedules.Publishable(ix, did, ddo)
    ensures Lead(ix, TwoUpdates(did, ddo, d, b)(n), did).Some? <==> n == d || n == b
  {
    var logs := UpdatesIn(did, ddo, d, b, n);
    assert TwoUpdates(did, ddo, d, b)(n) == logs;
    if n == d || n == b {
      var stamped := Stamped(ddo, logs[0]);
      assert stamped == ddo.(event := Some(stamped.event.value));
      assert Usable(ix, logs[0], did);
    }
  }

  lemma UpdateIsDecoded(did: string, ddo: Ddo, d: int, b: int, n: int)
    requires IsActive(ddo)
    ensures var logs := UpdatesIn(did, ddo, d, b, n);
            && InBlock(logs, n) && Decoded(logs) && OnlyMetadata(logs)
            && (forall tx :: Mentions(logs, tx) ==> (tx == "d" && n == d) || (tx == "b" && n == b))
            && forall i :: 0 <= i < |logs| ==> logs[i].MetadataLog? && logs[i].did == did
  {
  }

  lemma TwoUpdatesAreDated(did: string, ddo: Ddo, d: int, b: int, lo: int, hi: int)
    requires d != b && IsActive(ddo)
    ensures var chain := TwoUpdates(did, ddo, d, b);
            && Dated(chain, lo, hi) && MetadataChain(chain, lo, hi)
            && (forall n :: !Mentions(chain(n), ""))
            && forall n, i :: 0 <= i < |chain(n)| ==> chain(n)[i].MetadataLog? && chain(n)[i].did == did
  {
    var chain := TwoUpdates(did, ddo, d, b);
    assert "d"[0] != "b"[0];
    hide InBlock, Decoded, OnlyMetadata, UpdatesIn;
    forall n
      ensures InBlock(chain(n), n) && Decoded(chain(n)) && OnlyMetadata(chain(n))
      ensures forall tx :: Mentions(chain(n), tx) ==> (tx == "d" && n == d) || (tx == "b" && n == b)
      ensures forall i :: 0 <= i < |chain(n)| ==> chain(n)[i].MetadataLog? && chain(n)[i].did == did
    {
      UpdateIsDecoded(did, ddo, d, b, n);
      assert chain(n) == UpdatesIn(did, ddo, d, b, n);
    }
  }

  lemma TwoUpdatesAreMet(conf: Settings, s: State, hi: int, did: string, ddo: Ddo, d: int, b: int)
    requires 0 <= conf.start && d != b && IsActive(ddo)
    ensures var chain, start := TwoUpdates(did, ddo, d, b), Position(conf, s);
            && Meets(On(conf, chain), With(s, map[did := Original(ddo, start)]), hi)
            && Agrees(conf.ix, chain, did, start, hi, Original(ddo, start))
  {
    var chain, start := TwoUpdates(did, ddo, d, b), Position(conf, s);
    hide TwoUpdates, Dated, MetadataChain, Lead;
    TwoUpdatesAreDated(did, ddo, d, b, start, hi);
  }

  // ---------- the run ----------

  /** The run stays on a registered DDO, and once block b is passed the DDO is of an
      earlier block for good. */
  lemma {:induction false} PassedForGood(conf: Settings, s: State, rounds: seq<Round>, hi: int, did: string,
                                         d: int, b: int)
    requires 0 <= conf.start && 0 < conf.chunkSize && 0 < s.chunk && Idle(s) && s.windows == []
    requires FetchesAndCommitsFail(conf, rounds, hi) && Meets(conf, s, hi) && Position(conf, s) <= hi && d < b
    requires forall n :: Lead(conf.ix, conf.chain(n), did).Some? <==> n == d || n == b
    requires did in s.stores.docs && Agrees(conf.ix, conf.chain, did, Position(conf, s), hi, s.stores.docs[did])
    ensures var after := Run(conf, s, rounds);
            && did in after.stores.docs
            && Agrees(conf.ix, conf.chain, did, Position(conf, s), hi, after.stores.docs[did])
            && (FallsBack(after.windows, d, b) || (exists i :: PassedAt(after.windows, d, b, i)) ==>
                  after.stores.docs[did].event.value.block < b)
  {
    hide Step, Meets, Lead, Crawls, PassedAt, FallsBack, Agrees;
    if rounds == [] {
      NothingPassedYet(d, b);
    } else {
      var front, r := rounds[..|rounds| - 1], rounds[|rounds| - 1];
      var before, after := Run(conf, s, front), Run(conf, s, rounds);
      PassedForGood(conf, s, front, hi, did, d, b);
      PositiveChunk(conf, s, front);
      WindowsTile(conf, s, front);
      OriginStays(conf, s, front);
      RoundEffect(conf, before, r);
      if Crawls(conf, before, r) {
        var w := Window(Position(conf, before), WindowEnd(conf, before, r), r.fetchOk, r.commitOk, None);
        RoundDelivers(conf, before, r);
        WindowsAfter(before.windows, w, d, b);
        if r.fetchOk {
          FetchedKeepsPassed(conf, s, before, w, hi, did, d, b);
        }
      } else {
        IdleRound(conf, before, r);
      }
    }
  }

  lemma NothingPassedYet(d: int, b: int)
    ensures !FallsBack([], d, b) && forall i :: !PassedAt([], d, b, i)
  {
  }

  /** How one more window changes what was passed. */
  lemma WindowsAfter(windows: seq<Window>, w: Window, d: int, b: int)
    ensures w.fetched && FallsBack(windows + [w], d, b) ==> Covers(w, d) && w.end < b
    ensures !w.fetched && FallsBack(windows + [w], d, b) ==> FallsBack(windows, d, b)
    ensures forall i :: PassedAt(windows + [w], d, b, i) ==>
              PassedAt(windows, d, b, i) || (!w.fetched && FallsBack(windows, d, b))
  {
    var all := windows + [w];
    assert all[..|all| - 1] == windows;
    forall i | PassedAt(all, d, b, i) ensures PassedAt(windows, d, b, i) || (!w.fetched && FallsBack(windows, d, b)) {
      assert all[i] == if i < |windows| then windows[i] else w;
      assert i < |windows| ==> all[..i] == windows[..i];
    }
  }

  /** A fetched window saves the updates it has: that of block d alone, or none at all if
      block b is behind. */
  lemma FetchedKeepsPassed(conf: Settings, s: State, before: State, w: Window, hi: int, did: string, d: int, b: int)
    requires Meets(conf, s, hi) && d < b && 0 <= Position(conf, s)
    requires forall n :: Lead(conf.ix, conf.chain(n), did).Some? <==> n == d || n == b
    requires did in before.stores.docs
    requires Agrees(conf.ix, conf.chain, did, Position(conf, s), hi, before.stores.docs[did])
    requires Tiles(before.windows, Position(conf, s), w.start) && w.start < w.end <= hi
    ensures var ix, next := conf.ix, ProcessLogs(conf.ix, before.stores, LogsBetween(conf.chain, w.start, w.end)).docs;
            && did in next && Agrees(ix, conf.chain, did, Position(conf, s), hi, next[did])
            && (Covers(w, d) && w.end < b ==> next[did].event.value.block < b)
            && (forall i :: PassedAt(before.windows, d, b, i) ==> next[did] == before.stores.docs[did])
  {
    hide FoldOne, LogsBetween, ProcessLogs, Lead, FallsBack;
    var ix, chain, start := conf.ix, conf.chain, Position(conf, s);
    var ddo := before.stores.docs[did];
    TilesPartition(before.windows, start, w.start, 0);
    WindowIsMetadata(chain, start, hi, w.start, w.end);
    StoreIsFoldPerDid(ix, before.stores, LogsBetween(chain, w.start, w.end), did);
    WindowSavesLeads(ix, chain, did, start, hi, ddo, w.start, w.end);
    if Covers(w, d) && w.end < b {
      LeadIsAmong(ix, chain, did, w.start, w.end, d);
      var after := WindowMovesEvent(ix, chain, did, start, hi, ddo, w.start, w.end);
    }
    forall i | PassedAt(before.windows, d, b, i)
      ensures FoldOne(ix, did, Some(ddo), LogsBetween(chain, w.start, w.end)) == Some(ddo)
    {
      CommittedIsBehind(before.windows, start, w.start, i);
      QuietHasNoLeads(ix, chain, did, w.start, w.end);
    }
  }

  /** One pass over the fetched blocks ends with the update of block b. */
  lemma OnePassEndsLater(ix: Indexing, seen: Chain, did: string, lo: int, hi: int, st: Stores, end: int, b: int)
    requires 0 <= lo < b <= end <= hi && Dated(seen, lo, hi) && MetadataChain(seen, lo, hi)
    requires did in st.docs && Agrees(ix, seen, did, lo, hi, st.docs[did]) && Lead(ix, seen(b), did).Some?
    ensures var once := ProcessLogs(ix, st, LogsBetween(seen, lo, end)).docs;
            did in once && once[did].event.Some? && once[did].event.value.block >= b
  {
    hide FoldOne, LogsBetween, ProcessLogs, Lead, Agrees, Dated;
    WindowIsMetadata(seen, lo, hi, lo, end);
    StoreIsFoldPerDid(ix, st, LogsBetween(seen, lo, end), did);
    WindowSavesLeads(ix, seen, did, lo, hi, st.docs[did], lo, b - 1);
    var half := SaveAll(ix.cfg, st.docs[did], Leads(ix, seen, did, lo, b - 1));
    LeadIsAmong(ix, seen, did, b - 1, end, b);
    var after := WindowMovesEvent(ix, seen, did, lo, hi, half, b - 1, end);
    FoldSplit(ix, seen, did, Some(st.docs[did]), lo, b - 1, end);
  }

  lemma ThinnedAgrees(ix: Indexing, chain: Chain, seen: Chain, did: string, lo: int, hi: int, ddo: Ddo)
    requires Thinned(chain, seen, lo, hi) && Agrees(ix, chain, did, lo, hi, ddo)
    ensures Agrees(ix, seen, did, lo, hi, ddo)
  {
    assert forall b, tx :: lo < b <= hi && Mentions(seen(b), tx) ==> Mentions(chain(b), tx);
  }

  /** A passed block can lose its update. */
  lemma PassedLoses(conf: Settings, s: State, rounds: seq<Round>, hi: int, did: string, ddo: Ddo, i: int, b: int)
    requires 0 <= conf.start && 0 < conf.chunkSize && 0 < s.chunk && Idle(s) && s.windows == []
    requires Position(conf, s) <= Position(conf, Run(conf, s, rounds)) <= hi
    requires FetchesAndCommitsFail(conf, rounds, hi) && RedeliverySchedules.Publishable(conf.ix, did, ddo)
    requires Passes(Position(conf, s), Run(conf, s, rounds).windows, i, b) && Fetched(Run(conf, s, rounds).windows, b)
    ensures !AlwaysEndsAsOnePass(conf, s, rounds, hi)
  {
    assert IsActive(ddo);
    hide Step, FoldOne, LogsBetween, ProcessLogs, Lead, Agrees, Dated, MetadataChain, FallsBack, Original;
    hide RedeliverySchedules.Publishable, TwoUpdates;
    var start, after := Position(conf, s), Run(conf, s, rounds);
    var windows, position := after.windows, Position(conf, after);
    WindowsTile(conf, s, rounds);
    OriginStays(conf, s, rounds);
    PassingFallsBack(start, windows, position, i, b);
    CommittedIsBehind(windows, start, position, i);
    var d := Delivered(start, windows[..i]);
    var chain, docs := TwoUpdates(did, ddo, d, b), map[did := Original(ddo, start)];
    var conf', s' := On(conf, chain), With(s, docs);
    SameWindows(conf, s, rounds, chain, docs);
    TwoUpdatesAreMet(conf, s, hi, did, ddo, d, b);
    forall n ensures Lead(conf.ix, chain(n), did).Some? <==> n == d || n == b {
      TwoUpdatesLead(conf.ix, did, ddo, d, b, n);
    }
    PassedForGood(conf', s', rounds, hi, did, d, b);
    var seen := FetchedOnly(chain, windows);
    ThinnedIsDated(chain, seen, start, hi);
    ThinnedAgrees(conf.ix, chain, seen, did, start, hi, Original(ddo, start));
    OnePassEndsLater(conf.ix, seen, did, start, hi, s'.stores, position, b);
    assert !EndsAsOnePass(conf', s', rounds);
  }

  /** Once everything fetched has been committed, the documents are those of one pass over
      the fetched blocks, whatever chain and store the run meets, exactly when no fetched
      block was passed, after a shorter window, without being fetched again. (The store
      must take some document.) */
  lemma EndsAsOnePassIffNothingPassed(conf: Settings, s: State, rounds: seq<Round>, hi: int, did: string, ddo: Ddo)
    requires 0 <= conf.start && 0 < conf.chunkSize && 0 < s.chunk && Idle(s) && s.windows == []
    requires FetchesAndCommitsFail(conf, rounds, hi) && RedeliverySchedules.Publishable(conf.ix, did, ddo)
    requires Position(conf, s) <= hi
    requires Furthest(Position(conf, s), Run(conf, s, rounds).windows) <= Position(conf, Run(conf, s, rounds))
    ensures AlwaysEndsAsOnePass(conf, s, rounds, hi)
       <==> NothingPassed(Position(conf, s), Run(conf, s, rounds).windows)
  {
    hide Run, Position, Furthest, Dated, MetadataChain, Ready, FetchesAndCommitsFail, Fetched, Passes;
    var start, windows := Position(conf, s), Run(conf, s, rounds).windows;
    if NothingPassed(start, windows) {
      forall chain: Chain, docs: map<string, Ddo> | Meets(On(conf, chain), With(s, docs), hi)
        ensures EndsAsOnePass(On(conf, chain), With(s, docs), rounds)
      {
        OnePassOn(conf, s, rounds, hi, chain, docs);
      }
    } else {
      var i, b :| Passes(start, windows, i, b) && Fetched(windows, b);
      PositionBounded(conf, s, rounds, hi);
      PassedLoses(conf, s, rounds, hi, did, ddo, i, b);
    }
  }

  lemma OnePassOn(conf: Settings, s: State, rounds: seq<Round>, hi: int, chain: Chain, docs: map<string, Ddo>)
    requires 0 <= conf.start && 0 < conf.chunkSize && 0 < s.chunk && Idle(s) && s.windows == []
    requires FetchesAndCommitsFail(conf, rounds, hi) && Position(conf, s) <= hi
    requires Furthest(Position(conf, s), Run(conf, s, rounds).windows) <= Position(conf, Run(conf, s, rounds))
    requires NothingPassed(Position(conf, s), Run(conf, s, rounds).windows)
    requires Meets(On(conf, chain), With(s, docs), hi)
    ensures EndsAsOnePass(On(conf, chain), With(s, docs), rounds)
  {
    SameWindows(conf, s, rounds, chain, docs);
    hide Run, Furthest, Dated, MetadataChain, Ready, NothingPassed, LogsBetween, ProcessLogs;
    FetchedIsProcessedExactlyOnce(On(conf, chain), With(s, docs), rounds, hi);
  }

  lemma PositionBounded(conf: Settings, s: State, rounds: seq<Round>, hi: int)
    requires 0 <= conf.start && 0 < conf.chunkSize && 0 < s.chunk && Idle(s) && s.windows == []
    requires FetchesAndCommitsFail(conf, rounds, hi) && Position(conf, s) <= hi
    ensures Position(conf, s) <= Position(conf, Run(conf, s, rounds)) <= hi
  {
    HeightBoundsPosition(conf, s, rounds);
    MaxHeightBelow(Position(conf, s), rounds, hi);
    WindowsTile(conf, s, rounds);
    OriginStays(conf, s, rounds);
  }

  lemma {:induction false} MaxHeightBelow(bound: int, rounds: seq<Round>, hi: int)
    requires bound <= hi && forall i :: 0 <= i < |rounds| ==> rounds[i].height <= hi
    ensures MaxHeight(bound, rounds) <= hi
  {
    if rounds == [] {
    } else {
      MaxHeightBelow(bound, rounds[..|rounds| - 1], hi);
    }
  }

  // ---------- a run that passes blocks ----------

  /** Four rounds that see the same height, four blocks on: all four blocks are fetched but
      not committed; fetching fails, and halves the chunk; the first two blocks are fetched
      again and committed; fetching the other two fails, and they are committed. */
  function PassingRounds(height: int): seq<Round> {
    [Round(true, height, true, None, false, false, false), Round(true, height, false, None, false, false, false),
     Round(true, height, true, None, true, false, false), Round(true, height, false, None, true, false, false)]
  }

  function PassingWindows(p: int): seq<Window> {
    [Window(p, p + 4, true, false, None), Window(p, p + 4, false, false, None),
     Window(p, p + 2, true, true, None), Window(p + 2, p + 4, false, true, None)]
  }

  lemma PassingRun(conf: Settings, s: State) returns (after: State)
    requires 0 <= conf.start && conf.chunkSize == s.chunk == 4 && Idle(s) && s.windows == []
    ensures after == Run(conf, s, PassingRounds(Position(conf, s) + 4))
    ensures var p, ix := Position(conf, s), conf.ix;
            && Position(conf, after) == p + 4
            && after.windows == PassingWindows(p)
            && after.stores == ProcessLogs(ix, ProcessLogs(ix, s.stores, LogsBetween(conf.chain, p, p + 4)),
                                           LogsBetween(conf.chain, p, p + 2))
  {
    hide Step, Run, ProcessLogs, LogsBetween, Position, Idle;
    var p := Position(conf, s);
    var rounds := PassingRounds(p + 4);
    var first := Step(conf, s, rounds[0]);
    PassingRound(conf, s, rounds[0]);
    var second := Step(conf, first, rounds[1]);
    PassingRound(conf, first, rounds[1]);
    var third := Step(conf, second, rounds[2]);
    PassingRound(conf, second, rounds[2]);
    after := Step(conf, third, rounds[3]);
    PassingRound(conf, third, rounds[3]);
    FourRounds(conf, s, rounds);
  }

  /** One of these rounds. */
  lemma PassingRound(conf: Settings, s: State, r: Round)
    requires 0 <= conf.start && conf.chunkSize == 4 && 2 <= s.chunk <= 4 && Idle(s) && Position(conf, s) < r.height
    requires r.readOk && r.throwsAt.None? && !r.resetAsked
    ensures var after, start := Step(conf, s, r), Position(conf, s);
            var end := if r.height - start < s.chunk then r.height else start + s.chunk;
            && Idle(after) && after.chunk == (if r.fetchOk then s.chunk else if s.chunk < 4 then 4 else s.chunk / 2)
            && Position(conf, after) == (if r.commitOk then end else start)
            && after.windows == s.windows + [Window(start, end, r.fetchOk, r.commitOk, None)]
            && after.stores == if r.fetchOk then ProcessLogs(conf.ix, s.stores, LogsBetween(conf.chain, start, end))
                               else s.stores
  {
    RoundEffect(conf, s, r);
    RoundDelivers(conf, s, r);
    ChunkStaysInRange(conf, s, r);
  }

  lemma FourRounds(conf: Settings, s: State, rounds: seq<Round>)
    requires |rounds| == 4
    ensures Run(conf, s, rounds)
         == Step(conf, Step(conf, Step(conf, Step(conf, s, rounds[0]), rounds[1]), rounds[2]), rounds[3])
  {
    hide Step;
    assert rounds[..3][..2] == rounds[..2] && rounds[..2][..1] == rounds[..1] && rounds[..1][..0] == [];
    assert Run(conf, s, rounds[..1]) == Step(conf, s, rounds[0]);
    assert Run(conf, s, rounds[..2]) == Step(conf, Run(conf, s, rounds[..1]), rounds[1]);
    assert Run(conf, s, rounds[..3]) == Step(conf, Run(conf, s, rounds[..2]), rounds[2]);
  }

  /** Without the proviso an update is lost: after these rounds every block has been fetched
      and committed, but a DDO with updates in both halves is back at the first half. */
  lemma PassedUpdateIsLost(conf: Settings, s: State, did: string)
    requires 0 <= conf.start && conf.chunkSize == s.chunk == 4 && Idle(s) && s.windows == []
    requires var p := Position(conf, s);
             && Dated(conf.chain, p, p + 4) && MetadataChain(conf.chain, p, p + 4)
             && did in s.stores.docs && Agrees(conf.ix, conf.chain, did, p, p + 4, s.stores.docs[did])
             && Leads(conf.ix, conf.chain, did, p, p + 2) != [] && Leads(conf.ix, conf.chain, did, p + 2, p + 4) != []
    ensures var p := Position(conf, s);
            var after := Run(conf, s, PassingRounds(p + 4));
            && Position(conf, after) == p + 4
            && (forall b :: p < b <= p + 4 ==> Fetched(after.windows, b))
            && !NothingPassed(p, after.windows)
            && Lookup(after.stores.docs, did)
               != Lookup(ProcessLogs(conf.ix, s.stores, LogsBetween(conf.chain, p, p + 4)).docs, did)
  {
    var p := Position(conf, s);
    assert 0 <= p;
    hide Agrees, Dated, MetadataChain, Leads, LogsBetween, ProcessLogs, Idle;
    hide Run, Position, NothingPassed, Fetched, PassingRounds, PassingWindows;
    var after := PassingRun(conf, s);
    PassesTheSecondHalf(p, after.windows);
    FirstHalfAgain(conf.ix, conf.chain, did, p, p + 2, p + 4, s.stores);
  }

  /** A window, and then its first half again: the DDO is back at an event of that half. */
  lemma FirstHalfAgain(ix: Indexing, chain: Chain, did: string, lo: int, mid: int, hi: int, st: Stores)
    requires 0 <= lo <= mid <= hi && Dated(chain, lo, hi) && MetadataChain(chain, lo, hi)
    requires did in st.docs && Agrees(ix, chain, did, lo, hi, st.docs[did])
    requires Leads(ix, chain, did, lo, mid) != [] && Leads(ix, chain, did, mid, hi) != []
    ensures var once := ProcessLogs(ix, st, LogsBetween(chain, lo, hi));
            Lookup(ProcessLogs(ix, once, LogsBetween(chain, lo, mid)).docs, did) != Lookup(once.docs, did)
  {
    hide Agrees, Dated, MetadataChain, Leads, LogsBetween, FoldOne, ProcessLogs;
    var ddo := st.docs[did];
    var whole, half := LogsBetween(chain, lo, hi), LogsBetween(chain, lo, mid);
    WindowIsMetadata(chain, lo, hi, lo, hi);
    WindowIsMetadata(chain, lo, hi, lo, mid);
    StoreIsFoldPerDid(ix, st, whole, did);
    StoreIsFoldPerDid(ix, ProcessLogs(ix, st, whole), half, did);
    var first := WindowMovesEvent(ix, chain, did, lo, hi, ddo, lo, mid);
    var once := WindowMovesEvent(ix, chain, did, lo, hi, first, mid, hi);
    FoldSplit(ix, chain, did, Some(ddo), lo, mid, hi);
    var again := WindowMovesEvent(ix, chain, did, lo, hi, once, lo, mid);
  }

  lemma PassesTheSecondHalf(p: int, windows: seq<Window>)
    requires windows == PassingWindows(p)
    ensures !NothingPassed(p, windows)
    ensures forall b :: p < b <= p + 4 ==> Fetched(windows, b)
  {
    assert windows[0].fetched;
    forall b | p < b <= p + 4 ensures Fetched(windows, b) {
      assert Covers(windows[0], b);
    }
    assert windows[..3][2] == windows[2];
    assert Passes(p, windows, 3, p + 3);
  }
}
