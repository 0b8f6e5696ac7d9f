/** The crawl loop of one chain: windows of blocks, an adaptive chunk size, a committed
    last indexed block, and the reset that an admin can ask for.

    What the loop cannot control comes in as one `Round` for each time round the loop. */
module Crawlers {
  import opened Options
  import Arithmetic
  import DdoDatabases
  import opened Processors
  import opened ChainLogs

  datatype Round = Round(
    readOk: bool,            // reading the last indexed block: on failure it reads as absent
    height: int,             // network height
    fetchOk: bool,           // getLogs
    throwsAt: Option<nat>,   // the fetched log whose handling throws
    commitOk: bool,          // writing the last indexed block
    resetAsked: bool,        // a reindex-chain command arrived
    resetOk: bool)           // writing the reset block

  datatype Settings = Settings(ix: Indexing, chain: Chain, start: int, chunkSize: nat)

  /** One window of blocks (start, end] that the loop worked on, and which of its logs
      threw, if one did. */
  datatype Window = Window(start: int, end: int, fetched: bool, committed: bool, threwAt: Option<nat>)

  /** `windows` are the ones since the last reset. */
  datatype State = State(
    last: Option<int>,
    chunk: nat,
    reindex: Option<int>,
    stores: Stores,
    windows: seq<Window>)

  /** crawlingStartBlock. */
  function CrawlingStart(configured: Option<int>, deployed: int): int {
    if configured.Some? && configured.value != 0 && configured.value > deployed then configured.value else deployed
  }

  /** The block that the reindex-chain command asks to go back to. */
  function ReindexBlock(configured: Option<int>, deployed: int): int {
    if configured.Some? && configured.value != 0 && configured.value >= deployed then configured.value else deployed
  }

  /** The two are one block, the later of the configured and the deployed one, so `Settings.start` serves for both. */
  lemma ResetGoesToCrawlingStart(configured: Option<int>, deployed: int)
    ensures ReindexBlock(configured, deployed) == CrawlingStart(configured, deployed)
    ensures 0 <= deployed ==>
              CrawlingStart(configured, deployed)
              == if configured.Some? && deployed < configured.value then configured.value else deployed
  {
  }

  /** Where the next window starts, given the last indexed block as it was read. Block
      zero reads as absent. */
  function StartBlock(start: int, read: Option<int>): int {
    if read.Some? && read.value != 0 && read.value > start then read.value else start
  }

  function WindowStart(conf: Settings, s: State, r: Round): int {
    StartBlock(conf.start, if r.readOk then s.last else None)
  }

  function WindowEnd(conf: Settings, s: State, r: Round): int {
    var start := WindowStart(conf, s, r);
    start + Arithmetic.Min(s.chunk, r.height - start)
  }

  predicate Crawls(conf: Settings, s: State, r: Round) {
    r.height > WindowStart(conf, s, r)
  }

  /** The logs that the round gets to process. */
  function Processed(conf: Settings, s: State, r: Round): seq<Log> {
    if !r.fetchOk then []
    else
      var logs := LogsBetween(conf.chain, WindowStart(conf, s, r), WindowEnd(conf, s, r));
      if Throws(conf, s, r) then logs[..r.throwsAt.value] else logs
  }

  predicate Throws(conf: Settings, s: State, r: Round) {
    && r.fetchOk && r.throwsAt.Some?
    && r.throwsAt.value < |LogsBetween(conf.chain, WindowStart(conf, s, r), WindowEnd(conf, s, r))|
  }

  function ThrewAt(conf: Settings, s: State, r: Round): Option<nat> {
    if Throws(conf, s, r) then r.throwsAt else None
  }

  function Halved(chunk: nat): nat {
    if chunk / 2 < 1 then 1 else chunk / 2
  }

  function NextChunk(conf: Settings, s: State, r: Round): nat {
    var chunk := if r.fetchOk then s.chunk else Halved(s.chunk);
    if !Throws(conf, s, r) && chunk == 1 then conf.chunkSize else chunk
  }

  function Crawled(conf: Settings, s: State, r: Round): State {
    if !Crawls(conf, s, r) then s
    else
      var end := WindowEnd(conf, s, r);
      State(if r.commitOk then Some(end) else s.last,
            NextChunk(conf, s, r),
            s.reindex,
            ProcessLogs(conf.ix, s.stores, Processed(conf, s, r)),
            s.windows + [Window(WindowStart(conf, s, r), end, r.fetchOk, r.commitOk, ThrewAt(conf, s, r))])
  }

  function ResetTo(conf: Settings, s: State, block: int): State {
    State(Some(block), s.chunk, None,
          s.stores.(docs := s.stores.docs - DdoDatabases.OfChain(s.stores.docs, conf.ix.chainId)), [])
  }

  /** The command is remembered when it arrives, and served at the end of the round. */
  function AfterCommand(conf: Settings, s: State, r: Round): State {
    var reindex := if r.resetAsked then Some(conf.start) else s.reindex;
    if reindex.None? || reindex.value == 0 then s.(reindex := reindex)
    else if r.resetOk then ResetTo(conf, s, reindex.value)
    else s.(reindex := None)
  }

  function Step(conf: Settings, s: State, r: Round): State {
    AfterCommand(conf, Crawled(conf, s, r), r)
  }

  function Run(conf: Settings, s: State, rounds: seq<Round>): State {
    if rounds == [] then s
    else Step(conf, Run(conf, s, rounds[..|rounds| - 1]), rounds[|rounds| - 1])
  }

  /** The loop, run against the databases. */
  class Crawler {
    const settings: Settings
    const processors: EventProcessors
    var lastIndexedBlock: Option<int>
    var chunkSize: nat
    var reindexBlock: Option<int>
    ghost var windows: seq<Window>

    ghost predicate Valid()
      reads this, processors, processors.ddoDb
    {
      processors.ix == settings.ix && processors.Valid()
    }

    ghost function AsState(): State
      reads this, processors, processors.ddoDb, processors.orderDb
    {
      State(lastIndexedBlock, chunkSize, reindexBlock, processors.Contents(), windows)
    }

    constructor (settings: Settings, processors: EventProcessors, lastIndexedBlock: Option<int>)
      requires processors.ix == settings.ix && processors.Valid()
      ensures this.settings == settings && this.processors == processors && Valid()
      ensures AsState() == State(lastIndexedBlock, settings.chunkSize, None, processors.Contents(), [])
    {
      this.settings, this.processors := settings, processors;
      this.lastIndexedBlock, this.chunkSize, this.reindexBlock := lastIndexedBlock, settings.chunkSize, None;
      this.windows := [];
    }

    /** processNetworkData, for as many rounds as the environment plays. */
    method ProcessNetworkData(rounds: seq<Round>)
      requires Valid()
      modifies this, processors.ddoDb, processors.orderDb
      ensures Valid()
      ensures AsState() == Run(settings, old(AsState()), rounds)
    {
      var i := 0;
      while i < |rounds|
        invariant 0 <= i <= |rounds|
        invariant Valid()
        invariant AsState() == Run(settings, old(AsState()), rounds[..i])
      {
        hide DdoDatabases.Sound;
        assert rounds[..i + 1][..i] == rounds[..i];
        Crawl(rounds[i]);
        ReindexCommand(rounds[i]);
        i := i + 1;
      }
      assert rounds[..i] == rounds;
    }

    method Crawl(r: Round)
      requires Valid()
      modifies this, processors.ddoDb, processors.orderDb
      ensures Valid()
      ensures AsState() == Crawled(settings, old(AsState()), r)
    {
      hide DdoDatabases.Sound, ProcessLogs, LogsBetween;
      ghost var before := AsState();
      var last := if r.readOk then lastIndexedBlock else None;
      var startBlock := StartBlock(settings.start, last);
      if r.height > startBlock {
        var remainingBlocks := r.height - startBlock;
        var blocksToProcess := Arithmetic.Min(chunkSize, remainingBlocks);
        var chunkEvents: seq<Log> := [];
        if r.fetchOk {
          chunkEvents := LogsBetween(settings.chain, startBlock, startBlock + blocksToProcess);
        } else {
          chunkSize := if chunkSize / 2 < 1 then 1 else chunkSize / 2;
        }
        var throwsAt := if r.throwsAt.Some? then r.throwsAt.value else |chunkEvents|;
        var completed := processors.ProcessChunkLogs(chunkEvents, throwsAt);
        if r.commitOk {
          lastIndexedBlock := Some(startBlock + blocksToProcess);
        }
        if completed {
          chunkSize := if chunkSize != 1 then chunkSize else settings.chunkSize;
        }
        windows := windows + [Window(startBlock, startBlock + blocksToProcess, r.fetchOk, r.commitOk,
                                      if completed then None else Some(throwsAt))];
        assert processors.Contents()
            == ProcessLogs(settings.ix, before.stores, Processed(settings, before, r));
      }
    }

    /** The command handler and reindexChain. */
    method ReindexCommand(r: Round)
      requires Valid()
      modifies this, processors.ddoDb
      ensures Valid()
      ensures AsState() == AfterCommand(settings, old(AsState()), r)
    {
      hide DdoDatabases.Sound;
      if r.resetAsked {
        reindexBlock := Some(settings.start);
      }
      if reindexBlock.Some? && reindexBlock.value != 0 {
        if r.resetOk {
          lastIndexedBlock := reindexBlock;
          reindexBlock := None;
          var _ := processors.ddoDb.DeleteAllAssetsFromChain(settings.ix.chainId);
          windows := [];
        } else {
          reindexBlock := None;
        }
      }
    }
  }
}
