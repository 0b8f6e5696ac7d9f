/** Whole runs of the crawl loop: what is fetched, committed and processed. */
module CrawlerRuns {
  import opened Options
  import opened Arithmetic
  import Processors
  import opened ChainLogs
  import opened Crawlers
  import OrderRuns

  /** The block after which crawling goes on, as the database has it. */
  function Position(conf: Settings, s: State): int {
    StartBlock(conf.start, s.last)
  }

  /** Between rounds no reset is pending, except one to block zero, which is never served. */
  predicate Idle(s: State) {
    s.reindex.None? || s.reindex == Some(0)
  }

  /** A reset takes place: asked for, not to block zero, and written. */
  predicate Resets(conf: Settings, r: Round) {
    r.resetAsked && conf.start != 0 && r.resetOk
  }

  predicate FaultFree(conf: Settings, r: Round) {
    r.readOk && r.fetchOk && r.throwsAt.None? && r.commitOk && !Resets(conf, r)
  }

  predicate AllFaultFree(conf: Settings, rounds: seq<Round>) {
    forall i :: 0 <= i < |rounds| ==> FaultFree(conf, rounds[i])
  }

  // ---------- the chunk size does not matter ----------

  /** A run without faults leaves the stores as one fold over all logs it passed. */
  lemma {:induction false} FaultFreeRunIsOneFold(conf: Settings, s: State, rounds: seq<Round>)
    requires 0 <= conf.start && Idle(s) && AllFaultFree(conf, rounds)
    ensures var after := Run(conf, s, rounds);
            var from, end := Position(conf, s), Position(conf, after);
            && Idle(after)
            && from <= end
            && after.stores == Processors.ProcessLogs(conf.ix, s.stores, LogsBetween(conf.chain, from, end))
  {
    if rounds == [] {
      assert LogsBetween(conf.chain, Position(conf, s), Position(conf, s)) == [];
    } else {
      var before := Run(conf, s, rounds[..|rounds| - 1]);
      var r := rounds[|rounds| - 1];
      FaultFreeRunIsOneFold(conf, s, rounds[..|rounds| - 1]);
      if Crawls(conf, before, r) {
        var mid, end := Position(conf, before), WindowEnd(conf, before, r);
        if mid <= end {
          var logs, more := LogsBetween(conf.chain, Position(conf, s), mid), LogsBetween(conf.chain, mid, end);
          LogsOfAdjacentWindows(conf.chain, Position(conf, s), mid, end);
          Processors.ProcessLogsConcat(conf.ix, s.stores, logs, more);
        }
      }
    }
  }

  /** Two fault-free runs that catch up to the same block end with the same stores,
      whatever their chunk sizes and the heights they saw on the way. */
  lemma ChunkSizeIndependence(conf: Settings, other: Settings, s: State, rounds: seq<Round>, otherRounds: seq<Round>)
    requires 0 <= conf.start && other == conf.(chunkSize := other.chunkSize)
    requires Idle(s) && AllFaultFree(conf, rounds) && AllFaultFree(conf, otherRounds)
    requires Position(conf, Run(conf, s.(chunk := conf.chunkSize), rounds))
          == Position(conf, Run(other, s.(chunk := other.chunkSize), otherRounds))
    ensures Run(conf, s.(chunk := conf.chunkSize), rounds).stores
         == Run(other, s.(chunk := other.chunkSize), otherRounds).stores
  {
    FaultFreeRunIsOneFold(conf, s.(chunk := conf.chunkSize), rounds);
    FaultFreeRunIsOneFold(other, s.(chunk := other.chunkSize), otherRounds);
  }

  // ---------- committed windows tile the chain ----------

  predicate Reads(rounds: seq<Round>) {
    forall i :: 0 <= i < |rounds| ==> rounds[i].readOk
  }

  /** Where the windows since the last reset start: where the run started, or where a
      reset went back to. */
  function Origin(conf: Settings, s: State, rounds: seq<Round>): int {
    if rounds == [] then Position(conf, s)
    else if Resets(conf, rounds[|rounds| - 1]) then conf.start
    else Origin(conf, s, rounds[..|rounds| - 1])
  }

  function MaxHeight(bound: int, rounds: seq<Round>): int {
    if rounds == [] then bound
    else
      var rest := MaxHeight(bound, rounds[..|rounds| - 1]);
      if rounds[|rounds| - 1].height > rest then rounds[|rounds| - 1].height else rest
  }

  /** Windows laid end to end from `lo` to `hi`: each starts where the last committed one
      ended, and one that was not committed is started over. */
  predicate Tiles(windows: seq<Window>, lo: int, hi: int) {
    if windows == [] then lo == hi
    else
      var w := windows[|windows| - 1];
      && w.start < w.end
      && Tiles(windows[..|windows| - 1], lo, w.start)
      && hi == if w.committed then w.end else w.start
  }

  /** What a round that reads the last indexed block does to position and windows. */
  lemma RoundEffect(conf: Settings, s: State, r: Round)
    requires 0 <= conf.start && 0 < conf.chunkSize && 0 < s.chunk && Idle(s) && r.readOk
    ensures var after, start, end := Step(conf, s, r), Position(conf, s), WindowEnd(conf, s, r);
            && Idle(after) && 0 < after.chunk
            && (Resets(conf, r) ==> Position(conf, after) == conf.start && after.windows == [])
            && (!Resets(conf, r) && !Crawls(conf, s, r) ==>
                  Position(conf, after) == start && after.windows == s.windows)
            && (!Resets(conf, r) && Crawls(conf, s, r) ==>
                  && start < end
                  && Position(conf, after) == (if r.commitOk then end else start)
                  && after.windows == s.windows + [Window(start, end, r.fetchOk, r.commitOk, ThrewAt(conf, s, r))])
  {
  }

  /** Whatever fetches, commits and handlers fail, and whatever resets are asked for, the
      windows since the last reset tile the way from where they started to the position
      the database has. */
  lemma {:induction false} WindowsTile(conf: Settings, s: State, rounds: seq<Round>)
    requires 0 <= conf.start && 0 < conf.chunkSize && 0 < s.chunk && Idle(s) && s.windows == []
    requires Reads(rounds)
    ensures var after := Run(conf, s, rounds);
            && Idle(after) && 0 < after.chunk
            && Tiles(after.windows, Origin(conf, s, rounds), Position(conf, after))
            && Origin(conf, s, rounds) <= Position(conf, after)
  {
    hide Step, Position, Crawls, WindowEnd, Resets, Idle;
    if rounds == [] {
    } else {
      WindowsTile(conf, s, rounds[..|rounds| - 1]);
      var before, r := Run(conf, s, rounds[..|rounds| - 1]), rounds[|rounds| - 1];
      RoundEffect(conf, before, r);
      if Crawls(conf, before, r) && !Resets(conf, r) {
        var after := Run(conf, s, rounds);
        assert after.windows[..|after.windows| - 1] == before.windows;
      }
      TilesPartition(Run(conf, s, rounds).windows, Origin(conf, s, rounds), Position(conf, Run(conf, s, rounds)), 0);
    }
  }

  /** Even with failing reads and resets, the position never passes the highest height. */
  lemma {:induction false} HeightBoundsPosition(conf: Settings, s: State, rounds: seq<Round>)
    requires 0 <= conf.start && Idle(s)
    ensures var after := Run(conf, s, rounds);
            && Idle(after)
            && conf.start <= Position(conf, after) <= MaxHeight(Position(conf, s), rounds)
  {
    if rounds == [] {
    } else {
      HeightBoundsPosition(conf, s, rounds[..|rounds| - 1]);
    }
  }

  predicate Covers(w: Window, b: int) {
    w.start < b <= w.end
  }

  predicate CommittedOver(windows: seq<Window>, i: int, b: int) {
    0 <= i < |windows| && windows[i].committed && Covers(windows[i], b)
  }

  /** Tiling means partition: each block of the stretch lies in exactly one committed
      window, and committed windows hold no other block. */
  lemma {:induction false} TilesPartition(windows: seq<Window>, lo: int, hi: int, b: int)
    requires Tiles(windows, lo, hi)
    ensures lo <= hi
    ensures lo < b <= hi <==> exists i :: CommittedOver(windows, i, b)
    ensures forall i, j :: CommittedOver(windows, i, b) && CommittedOver(windows, j, b) ==> i == j
  {
    if windows == [] {
    } else {
      var front, w := windows[..|windows| - 1], windows[|windows| - 1];
      TilesPartition(front, lo, w.start, b);
      forall i | i != |windows| - 1 ensures CommittedOver(windows, i, b) <==> CommittedOver(front, i, b) {}
      if lo < b <= w.start {
        var i :| CommittedOver(front, i, b);
        assert CommittedOver(windows, i, b);
      } else if w.committed && Covers(w, b) {
        assert CommittedOver(windows, |windows| - 1, b);
      }
    }
  }

  predicate Fetched(windows: seq<Window>, b: int) {
    exists i :: 0 <= i < |windows| && windows[i].fetched && Covers(windows[i], b)
  }

  /** A block behind the position was never fetched exactly when getLogs failed for the
      committed window that holds it and no earlier attempt at the block had fetched it. */
  lemma NeverFetchedIff(windows: seq<Window>, lo: int, hi: int, b: int)
    requires Tiles(windows, lo, hi) && lo < b <= hi
    ensures !Fetched(windows, b) <==>
              && (exists i :: CommittedOver(windows, i, b) && !windows[i].fetched)
              && (forall j :: 0 <= j < |windows| && !windows[j].committed && Covers(windows[j], b) ==>
                    !windows[j].fetched)
  {
    TilesPartition(windows, lo, hi, b);
    var i :| CommittedOver(windows, i, b);
    if !windows[i].fetched && Fetched(windows, b) {
      var j :| 0 <= j < |windows| && windows[j].fetched && Covers(windows[j], b);
      assert i != j;
      assert !CommittedOver(windows, j, b);
    }
  }

  /** The committed window's failure alone does not tell. From any state, two rounds that
      see one new block: it is fetched but not committed, then committed although getLogs
      fails. Every committed window failed, yet the block was fetched. */
  lemma FetchedYetCommittedWindowFailed(conf: Settings, s: State)
    requires 0 <= conf.start && 0 < conf.chunkSize && 0 < s.chunk && Idle(s) && s.windows == []
    ensures var block := Position(conf, s) + 1;
            var rounds := [Round(true, block, true, None, false, false, false),
                           Round(true, block, false, None, true, false, false)];
            var after := Run(conf, s, rounds);
            && Position(conf, after) == block && Fetched(after.windows, block)
            && forall i :: 0 <= i < |after.windows| && after.windows[i].committed ==> !after.windows[i].fetched
  {
    var block := Position(conf, s) + 1;
    var first := Round(true, block, true, None, false, false, false);
    var second := Round(true, block, false, None, true, false, false);
    assert [first, second][..1] == [first] && [first][..0] == [];
    var once := Step(conf, s, first);
    assert Run(conf, s, [first]) == once;
    RoundEffect(conf, s, first);
    assert once.windows == [Window(block - 1, block, true, false, None)];
    var after := Step(conf, once, second);
    assert Run(conf, s, [first, second]) == after;
    RoundEffect(conf, once, second);
    assert after.windows == once.windows + [Window(block - 1, block, false, true, None)];
    assert after.windows[0].fetched && Covers(after.windows[0], block);
  }

  /** The last indexed block goes down exactly when reading it failed, crawling therefore
      started over, and the restarted window was committed below it. */
  lemma LastIndexedDecreasesIff(conf: Settings, s: State, r: Round)
    requires 0 <= conf.start && 0 < s.chunk && s.last.Some? && Idle(s) && !Resets(conf, r)
    ensures var after := Step(conf, s, r);
            && after.last.Some?
            && (after.last.value < s.last.value <==>
                  && !r.readOk && r.commitOk && r.height > conf.start
                  && conf.start + Min(s.chunk, r.height - conf.start) < s.last.value)
  {
  }

  /** One failing read far into the chain: crawling is committed back near the start. */
  lemma FailedReadGoesBack(conf: Settings, s: State)
    requires conf.start == 1 && s == State(Some(1000), 10, None, s.stores, [])
    ensures Step(conf, s, Round(false, 1001, true, None, true, false, false)).last == Some(11)
  {
  }

  // ---------- logs that throw ----------

  /** What a round does to the stores: the logs of a window that was fetched are processed
      in order, up to the one that throws; that one and the rest of the window are not. */
  lemma RoundProcesses(conf: Settings, s: State, r: Round)
    requires Idle(s) && !Resets(conf, r)
    ensures !Crawls(conf, s, r) || !r.fetchOk ==> Step(conf, s, r).stores == s.stores
    ensures Crawls(conf, s, r) && r.fetchOk ==>
              var logs := LogsBetween(conf.chain, WindowStart(conf, s, r), WindowEnd(conf, s, r));
              Step(conf, s, r).stores
              == Processors.ProcessLogs(conf.ix, s.stores,
                                        if r.throwsAt.Some? && r.throwsAt.value < |logs| then logs[..r.throwsAt.value]
                                        else logs)
  {
    assert Processors.ProcessLogs(conf.ix, s.stores, []) == s.stores;
  }

  /** The logs of a window that were handled. */
  function HandledIn(chain: Chain, w: Window): seq<Processors.Log> {
    var logs := LogsBetween(chain, w.start, w.end);
    if !w.fetched then []
    else if w.threwAt.Some? && w.threwAt.value < |logs| then logs[..w.threwAt.value]
    else logs
  }

  function HandledLogs(chain: Chain, windows: seq<Window>): seq<Processors.Log> {
    if windows == [] then []
    else HandledLogs(chain, windows[..|windows| - 1]) + HandledIn(chain, windows[|windows| - 1])
  }

  /** Whatever reads, fetches, commits and handlers fail: the stores are one fold over the
      logs that the windows handled, each window cut at its throw. */
  lemma {:induction false} RunIsOneFold(conf: Settings, s: State, rounds: seq<Round>)
    requires Idle(s) && s.windows == [] && forall i :: 0 <= i < |rounds| ==> !Resets(conf, rounds[i])
    ensures var after := Run(conf, s, rounds);
            && Idle(after)
            && after.stores == Processors.ProcessLogs(conf.ix, s.stores, HandledLogs(conf.chain, after.windows))
  {
    hide Step;
    if rounds == [] {
      assert Processors.ProcessLogs(conf.ix, s.stores, []) == s.stores;
    } else {
      var front, r := rounds[..|rounds| - 1], rounds[|rounds| - 1];
      var before, after := Run(conf, s, front), Run(conf, s, rounds);
      RunIsOneFold(conf, s, front);
      RoundWindow(conf, before, r);
      RoundProcesses(conf, before, r);
      if Crawls(conf, before, r) {
        var w := after.windows[|after.windows| - 1];
        assert after.windows[..|after.windows| - 1] == before.windows;
        Processors.ProcessLogsConcat(conf.ix, s.stores, HandledLogs(conf.chain, before.windows),
                                     HandledIn(conf.chain, w));
        assert Processors.ProcessLogs(conf.ix, before.stores, []) == before.stores;
        hide Processors.ProcessLogs, LogsBetween;
        assert w.threwAt == ThrewAt(conf, before, r);
      } else {
        assert after.windows == before.windows;
      }
    }
  }

  lemma RoundWindow(conf: Settings, s: State, r: Round)
    requires Idle(s) && !Resets(conf, r)
    ensures Idle(Step(conf, s, r))
    ensures Step(conf, s, r).windows
         == s.windows + if !Crawls(conf, s, r) then []
                        else [Window(WindowStart(conf, s, r), WindowEnd(conf, s, r), r.fetchOk, r.commitOk,
                                     ThrewAt(conf, s, r))]
  {
  }

  /** Where the i-th log of block b comes in a window. */
  function PlaceIn(chain: Chain, w: Window, b: int, i: int): int {
    |LogsBetween(chain, w.start, b - 1)| + i
  }

  lemma LogAtItsPlace(chain: Chain, w: Window, b: int, i: nat)
    requires Covers(w, b) && i < |chain(b)|
    ensures var logs, place := LogsBetween(chain, w.start, w.end), PlaceIn(chain, w, b, i);
            0 <= place < |logs| && logs[place] == chain(b)[i]
  {
    LogsOfAdjacentWindows(chain, w.start, b, w.end);
    assert LogsBetween(chain, w.start, b) == LogsBetween(chain, w.start, b - 1) + chain(b);
  }

  /** Window k handled the i-th log of block b. */
  predicate Handles(chain: Chain, windows: seq<Window>, k: int, b: int, i: int) {
    && 0 <= k < |windows| && Covers(windows[k], b)
    && PlaceIn(chain, windows[k], b, i) < |HandledIn(chain, windows[k])|
  }

  /** Window k left the i-th log of block b out: getLogs failed, or that log or an earlier
      one of the window threw. */
  predicate LeavesOut(chain: Chain, w: Window, b: int, i: int) {
    !w.fetched || (w.threwAt.Some? && w.threwAt.value <= PlaceIn(chain, w, b, i))
  }

  /** Which logs behind the position were never processed: exactly those that the committed
      window of their block left out, and every uncommitted attempt at the block as well. */
  lemma NeverHandledIff(chain: Chain, windows: seq<Window>, lo: int, hi: int, b: int, i: nat)
    requires Tiles(windows, lo, hi) && lo < b <= hi && i < |chain(b)|
    ensures (forall k :: !Handles(chain, windows, k, b, i)) <==>
              && (exists k :: CommittedOver(windows, k, b) && LeavesOut(chain, windows[k], b, i))
              && (forall j :: 0 <= j < |windows| && !windows[j].committed && Covers(windows[j], b) ==>
                    LeavesOut(chain, windows[j], b, i))
  {
    hide LogsBetween, PlaceIn;
    TilesPartition(windows, lo, hi, b);
    var c :| CommittedOver(windows, c, b);
    forall k | 0 <= k < |windows| && Covers(windows[k], b)
      ensures Handles(chain, windows, k, b, i) <==> !LeavesOut(chain, windows[k], b, i)
    {
      LogAtItsPlace(chain, windows[k], b, i);
    }
    if forall k :: !Handles(chain, windows, k, b, i) {
      assert !Handles(chain, windows, c, b, i);
      forall j | 0 <= j < |windows| && !windows[j].committed && Covers(windows[j], b)
        ensures LeavesOut(chain, windows[j], b, i)
      {
        assert !Handles(chain, windows, j, b, i);
      }
    } else {
      var k :| Handles(chain, windows, k, b, i);
      assert windows[k].committed ==> CommittedOver(windows, k, b);
    }
  }

  // ---------- resets ----------

  /** A reset takes place exactly when one is asked for, it does not go back to block
      zero, and the write succeeds. Then the next window starts at the crawling start
      and the chain's documents are gone; no other document is, and no order. */
  lemma ResetStartsOver(conf: Settings, s: State, r: Round, next: Round)
    requires Idle(s)
    ensures var crawled := Crawled(conf, s, r);
            var after := Step(conf, s, r);
            if Resets(conf, r) then
              && after.last == Some(conf.start)
              && WindowStart(conf, after, next) == conf.start
              && (forall did :: did in after.stores.docs <==>
                    did in crawled.stores.docs && crawled.stores.docs[did].chainId != conf.ix.chainId)
              && after.stores.orders == crawled.stores.orders
            else
              after.last == crawled.last && after.stores == crawled.stores
  {
  }

  /** No run of the crawler, with whatever faults and resets, leaves a reuse chain that does
      not end at a start order of the same consumer. */
  lemma {:induction false} CrawlingKeepsOrderChains(conf: Settings, s: State, rounds: seq<Round>)
    requires OrderRuns.WellFounded(s.stores.orders)
    ensures OrderRuns.WellFounded(Run(conf, s, rounds).stores.orders)
  {
    if rounds == [] {
    } else {
      var before, r := Run(conf, s, rounds[..|rounds| - 1]), rounds[|rounds| - 1];
      CrawlingKeepsOrderChains(conf, s, rounds[..|rounds| - 1]);
      OrderRuns.ChainsStayWellFounded(conf.ix, before.stores, Processed(conf, before, r));
    }
  }

  // ---------- the chunk size ----------

  predicate FailsToFetch(conf: Settings, s: State, r: Round) {
    Crawls(conf, s, r) && !r.fetchOk
  }

  /** From round to round the chunk size stays between two and the configured one. A
      failing fetch halves it, except that one is never kept: it becomes the
      configured size again. */
  lemma ChunkStaysInRange(conf: Settings, s: State, r: Round)
    requires 2 <= conf.chunkSize && 2 <= s.chunk <= conf.chunkSize
    ensures var after := Step(conf, s, r);
            && 2 <= after.chunk <= conf.chunkSize
            && after.chunk == if !FailsToFetch(conf, s, r) then s.chunk
                              else if s.chunk < 4 then conf.chunkSize
                              else s.chunk / 2
  {
  }

  function Pow2(k: nat): (p: nat)
    ensures p > 0
  {
    if k == 0 then 1 else 2 * Pow2(k - 1)
  }

  /** Every round of the run reaches a window and fails to fetch it. */
  predicate AllFailToFetch(conf: Settings, s: State, rounds: seq<Round>) {
    rounds == [] ||
    (&& AllFailToFetch(conf, s, rounds[..|rounds| - 1])
     && FailsToFetch(conf, Run(conf, s, rounds[..|rounds| - 1]), rounds[|rounds| - 1]))
  }

  function Halvings(c: nat, k: nat): nat {
    if k == 0 then c else Halvings(c, k - 1) / 2
  }

  lemma MulMonotone(p: nat, a: int, b: int)
    requires a <= b
    ensures p * a <= p * b
  {
  }

  lemma DividesInto(c: nat, d: nat)
    requires d > 0
    ensures d * (c / d) <= c < d * (c / d) + d
  {
  }

  lemma HalfOfQuotient(c: nat, p: nat)
    requires p > 0
    ensures (c / p) / 2 == c / (2 * p)
  {
    var q, h := c / p, c / (2 * p);
    DividesInto(c, p);
    DividesInto(c, 2 * p);
    assert (2 * p) * h == p * (2 * h);
    if q < 2 * h {
      MulMonotone(p, q + 1, 2 * h);
    } else if q >= 2 * h + 2 {
      MulMonotone(p, 2 * h + 2, q);
    }
  }

  /** Halving k times is dividing by 2^k. */
  lemma {:induction false} HalvingsIsQuotient(c: nat, k: nat)
    ensures Halvings(c, k) == c / Pow2(k)
  {
    if k == 0 {
    } else {
      HalvingsIsQuotient(c, k - 1);
      HalfOfQuotient(c, Pow2(k - 1));
    }
  }

  /** k failures in a row divide the chunk size by 2^k, as long as that leaves two or
      more; the failure that would leave one brings the configured size back. */
  lemma ChunkAfterFailures(conf: Settings, s: State, rounds: seq<Round>)
    requires 2 <= conf.chunkSize && s.chunk == conf.chunkSize && AllFailToFetch(conf, s, rounds)
    requires rounds != [] ==> conf.chunkSize / Pow2(|rounds| - 1) >= 2
    ensures Run(conf, s, rounds).chunk
         == if conf.chunkSize / Pow2(|rounds|) >= 2 then conf.chunkSize / Pow2(|rounds|) else conf.chunkSize
  {
    HalvingsIsQuotient(conf.chunkSize, |rounds|);
    if rounds != [] {
      HalvingsIsQuotient(conf.chunkSize, |rounds| - 1);
    }
    hide Pow2;
    ChunkAfterHalvings(conf, s, rounds);
  }

  lemma {:induction false} ChunkAfterHalvings(conf: Settings, s: State, rounds: seq<Round>)
    requires 2 <= conf.chunkSize && s.chunk == conf.chunkSize && AllFailToFetch(conf, s, rounds)
    requires rounds != [] ==> Halvings(conf.chunkSize, |rounds| - 1) >= 2
    ensures Run(conf, s, rounds).chunk
         == if Halvings(conf.chunkSize, |rounds|) >= 2 then Halvings(conf.chunkSize, |rounds|) else conf.chunkSize
    ensures 2 <= Run(conf, s, rounds).chunk <= conf.chunkSize
  {
    if rounds == [] {
    } else {
      var front := rounds[..|rounds| - 1];
      if front != [] {
        assert Halvings(conf.chunkSize, |front|) == Halvings(conf.chunkSize, |front| - 1) / 2;
      }
      ChunkAfterHalvings(conf, s, front);
      var before := Run(conf, s, front);
      assert before.chunk == Halvings(conf.chunkSize, |front|);
      hide Step, FailsToFetch;
      FailingRound(conf, before, rounds[|rounds| - 1]);
    }
  }

  lemma FailingRound(conf: Settings, s: State, r: Round)
    requires 2 <= conf.chunkSize && 2 <= s.chunk <= conf.chunkSize && FailsToFetch(conf, s, r)
    ensures Step(conf, s, r).chunk == if s.chunk / 2 >= 2 then s.chunk / 2 else conf.chunkSize
    ensures 2 <= Step(conf, s, r).chunk <= conf.chunkSize
  {
    ChunkStaysInRange(conf, s, r);
  }

  // ---------- progress ----------

  predicate Progresses(conf: Settings, rounds: seq<Round>, height: int) {
    forall i :: 0 <= i < |rounds| ==>
      rounds[i].readOk && rounds[i].commitOk && !Resets(conf, rounds[i]) && rounds[i].height == height
  }

  predicate ChunkInRange(conf: Settings, s: State) {
    if conf.chunkSize == 1 then s.chunk == 1 else 2 <= s.chunk <= conf.chunkSize
  }

  /** What one such round gains. */
  lemma RoundGains(conf: Settings, s: State, r: Round, height: int)
    requires 0 <= conf.start && 1 <= conf.chunkSize && Idle(s) && Position(conf, s) <= height && ChunkInRange(conf, s)
    requires r.readOk && r.commitOk && !Resets(conf, r) && r.height == height
    ensures var after := Step(conf, s, r);
            && Idle(after) && ChunkInRange(conf, after)
            && Min(height, Position(conf, s) + Min(2, conf.chunkSize)) <= Position(conf, after) <= height
  {
    RoundEffect(conf, s, r);
  }

  /** With commits succeeding and a fixed height, every round gains at least two blocks
      (one, if the configured size is one) until the height is reached, whatever
      fetches and handlers fail. */
  lemma {:induction false} ReachesHeight(conf: Settings, s: State, rounds: seq<Round>, height: int)
    requires 0 <= conf.start && 1 <= conf.chunkSize && Idle(s) && Position(conf, s) <= height
    requires ChunkInRange(conf, s)
    requires Progresses(conf, rounds, height)
    ensures var after := Run(conf, s, rounds);
            && Idle(after)
            && ChunkInRange(conf, after)
            && Min(height, Position(conf, s) + Min(2, conf.chunkSize) * |rounds|) <= Position(conf, after) <= height
  {
    hide Step, Position, ChunkInRange, Idle, Resets;
    if rounds == [] {
    } else {
      var front, gain := rounds[..|rounds| - 1], Min(2, conf.chunkSize);
      ReachesHeight(conf, s, front, height);
      RoundGains(conf, Run(conf, s, front), rounds[|rounds| - 1], height);
      Distribute(|front|, gain);
    }
  }

  /** Without failing fetches every round gains exactly a chunk, so the height is reached
      in exactly as many rounds as whole or partial chunks fit. */
  lemma {:induction false} ReachesHeightByChunks(conf: Settings, s: State, rounds: seq<Round>, height: int)
    requires 0 <= conf.start && 1 <= conf.chunkSize == s.chunk && Idle(s) && Position(conf, s) <= height
    requires Progresses(conf, rounds, height) && forall i :: 0 <= i < |rounds| ==> rounds[i].fetchOk
    ensures var after := Run(conf, s, rounds);
            && Idle(after) && after.chunk == conf.chunkSize
            && Position(conf, after) == Min(height, Position(conf, s) + |rounds| * conf.chunkSize)
  {
    if rounds != [] {
      var front := rounds[..|rounds| - 1];
      ReachesHeightByChunks(conf, s, front, height);
      assert |rounds| * conf.chunkSize == |front| * conf.chunkSize + conf.chunkSize by {
        Distribute(|front|, conf.chunkSize);
      }
      ChunkRound(conf, Run(conf, s, front), rounds[|rounds| - 1], height);
      hide Step, Position;
    } else {
      assert |rounds| * conf.chunkSize == 0;
    }
  }

  lemma Distribute(n: nat, c: nat)
    ensures (n + 1) * c == n * c + c
  {
  }

  lemma ChunkRound(conf: Settings, s: State, r: Round, height: int)
    requires 0 <= conf.start && 1 <= conf.chunkSize == s.chunk && Idle(s) && Position(conf, s) <= height
    requires r.readOk && r.commitOk && !Resets(conf, r) && r.height == height && r.fetchOk
    ensures var after := Step(conf, s, r);
            && Idle(after) && after.chunk == conf.chunkSize
            && Position(conf, after) == Min(height, Position(conf, s) + conf.chunkSize)
  {
  }
}
