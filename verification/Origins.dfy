/** Where the stored records come from: over any run of logs, what an order record or a
    document says is what some event of the run said. And which events change anything. */
module Origins {
  import opened Options
  import opened Documents
  import opened DdoDatabases
  import opened OrderDatabases
  import opened Processors
  import OrderRuns
  import Strings

  // ---------- order records ----------

  predicate HasService(docs: map<string, Ddo>, did: string, index: nat) {
    did in docs && docs[did].services.Some? && index < |docs[did].services.value|
  }

  /** The record of an OrderStarted event, given the documents at its time. */
  predicate StartRecordOf(docs: map<string, Ddo>, log: Log, order: Order) {
    && log.OrderStartedLog? && order.kind == StartOrder
    && order.consumer == log.consumer && order.payer == log.payer && order.timestamp == log.timestamp
    && order.nftAddress == log.nftAddress && order.did == log.did
    && HasService(docs, log.did, log.serviceIndex)
    && order.datatokenAddress == docs[log.did].services.value[log.serviceIndex].datatokenAddress
  }

  /** The record of an OrderReused event; whose consumer it has is said below. */
  predicate ReuseRecordOf(docs: map<string, Ddo>, log: Log, order: Order) {
    && log.OrderReusedLog? && order.kind == ReuseOrder(log.startOrderId)
    && order.payer == log.payer && order.timestamp == log.timestamp
    && order.nftAddress == log.nftAddress && order.did == log.did
    && HasService(docs, log.did, 0)
    && order.datatokenAddress == docs[log.did].services.value[0].datatokenAddress
  }

  /** The k-th log of a run is the event that an order record is of. */
  ghost predicate RecordedBy(ix: Indexing, st: Stores, logs: seq<Log>, k: int, id: string, order: Order) {
    && 0 <= k < |logs| && logs[k].tx == id
    && var docs := ProcessLogs(ix, st, logs[..k]).docs;
       StartRecordOf(docs, logs[k], order) || ReuseRecordOf(docs, logs[k], order)
  }

  lemma ProcessLast(ix: Indexing, st: Stores, front: seq<Log>, last: Log)
    ensures ProcessLogs(ix, st, front + [last]) == ProcessLog(ix, ProcessLogs(ix, st, front), last)
  {
    ProcessLogsConcat(ix, st, front, [last]);
    var before := ProcessLogs(ix, st, front);
    assert ProcessLogs(ix, ProcessLog(ix, before, last), []) == ProcessLog(ix, before, last);
    assert [last][1..] == [];
  }

  /** One log leaves the records it finds, and adds at most the one of its transaction. */
  lemma OneRecord(ix: Indexing, st: Stores, log: Log)
    ensures var after := ProcessLog(ix, st, log).orders;
            && (forall id :: id in st.orders ==> id in after && after[id] == st.orders[id])
            && (forall id :: id in after && id !in st.orders ==>
                  && id == log.tx
                  && (StartRecordOf(st.docs, log, after[id]) || ReuseRecordOf(st.docs, log, after[id])))
  {
    hide Save;
  }

  /** In every run from an empty order store, each record is that of an order event of its
      transaction. */
  lemma {:induction false} RecordsComeFromEvents(ix: Indexing, st: Stores, logs: seq<Log>)
    requires st.orders == map[]
    ensures var orders := ProcessLogs(ix, st, logs).orders;
            forall id :: id in orders ==> exists k :: RecordedBy(ix, st, logs, k, id, orders[id])
  {
    if logs == [] {
    } else {
      var front, last := logs[..|logs| - 1], logs[|logs| - 1];
      assert logs == front + [last];
      RecordsComeFromEvents(ix, st, front);
      ProcessLast(ix, st, front, last);
      var before := ProcessLogs(ix, st, front);
      OneRecord(ix, before, last);
      var orders := ProcessLogs(ix, st, logs).orders;
      hide ProcessLogs, ProcessLog, StartRecordOf, ReuseRecordOf;
      forall id | id in orders ensures exists k :: RecordedBy(ix, st, logs, k, id, orders[id]) {
        if id in before.orders {
          var k :| RecordedBy(ix, st, front, k, id, before.orders[id]);
          assert logs[..k] == front[..k] && logs[k] == front[k];
          assert RecordedBy(ix, st, logs, k, id, orders[id]);
        } else {
          assert logs[..|logs| - 1] == front;
          assert RecordedBy(ix, st, logs, |logs| - 1, id, orders[id]);
        }
      }
    }
  }

  /** And its consumer is the one of the OrderStarted event that its chain of reuses leads
      back to. */
  lemma ConsumersComeFromStarts(ix: Indexing, st: Stores, logs: seq<Log>, id: string)
    requires st.orders == map[] && id in ProcessLogs(ix, st, logs).orders
    ensures var orders := ProcessLogs(ix, st, logs).orders;
            && OrderRuns.ChainEnds(orders, id, |orders|)
            && exists k :: 0 <= k < |logs| && logs[k].OrderStartedLog?
                           && logs[k].tx == OrderRuns.Root(orders, id, |orders|)
                           && logs[k].consumer == orders[id].consumer
  {
    var orders := ProcessLogs(ix, st, logs).orders;
    OrderRuns.ChainsStayWellFounded(ix, st, logs);
    RecordsComeFromEvents(ix, st, logs);
    var root := OrderRuns.Root(orders, id, |orders|);
    var k :| RecordedBy(ix, st, logs, k, root, orders[root]);
    assert logs[k].OrderStartedLog?;
  }

  // ---------- documents ----------

  /** What a document keeps of the metadata event it was last saved for. */
  predicate SavedFor(log: Log, ddo: Ddo) {
    && log.MetadataLog? && log.did == ddo.id && log.payload.Some? && log.payload.value.id == ddo.id
    && ddo.event.Some?
    && ddo.event.value.tx == log.tx && ddo.event.value.from == log.from && ddo.event.value.contract == log.contract
    && ddo.event.value.block == (if log.block == 0 then -1 else log.block)
    && (log.datetime.Some? ==> ddo.event.value.datetime == log.datetime)
    && var payload := log.payload.value;
       && (payload.version.Some? ==> ddo.version == payload.version)
       && (payload.services.Some? ==> ddo.services == payload.services)
       && forall key :: key in payload.content ==> key in ddo.content && ddo.content[key] == payload.content[key]
  }

  /** What is left of a document that a state event has stripped. */
  predicate Bare(ddo: Ddo) {
    ddo.event.None? && ddo.version.None? && ddo.services.None? && ddo.stats.None? && ddo.content == map[]
  }

  predicate HasOrigin(logs: seq<Log>, ddo: Ddo) {
    Bare(ddo) || exists k :: 0 <= k < |logs| && SavedFor(logs[k], ddo)
  }

  lemma OriginStays(logs: seq<Log>, last: Log, stored: Ddo, ddo: Ddo)
    requires HasOrigin(logs, stored)
    requires ddo.id == stored.id && ddo.event == stored.event && ddo.version == stored.version
    requires ddo.services == stored.services && ddo.content == stored.content
    requires Bare(stored) ==> ddo.stats.None?
    ensures HasOrigin(logs + [last], ddo)
  {
    if !Bare(stored) {
      var k :| 0 <= k < |logs| && SavedFor(logs[k], stored);
      assert (logs + [last])[k] == logs[k];
      assert SavedFor(logs[k], ddo);
    }
  }

  lemma SavedAnew(logs: seq<Log>, last: Log, ddo: Ddo)
    requires SavedFor(last, ddo)
    ensures HasOrigin(logs + [last], ddo)
  {
    assert (logs + [last])[|logs|] == last;
  }

  /** Saving a metadata event's document: the stored one is saved for that event. */
  lemma MetadataSaves(ix: Indexing, docs: map<string, Ddo>, log: Log)
    requires log.MetadataLog? && forall did :: did in docs ==> docs[did].id == did
    ensures var after := ProcessMetadata(ix, docs, log);
            after == docs
            || (&& log.did in after && after[log.did].id == log.did && SavedFor(log, after[log.did])
                && after == docs[log.did := after[log.did]])
  {
    if ProcessMetadata(ix, docs, log) != docs {
      var ddo := Stamped(log.payload.value, log);
      SaveMeans(ix.cfg, docs, ddo);
    }
  }

  /** Saving a stored document with another state or count. */
  lemma SavesOver(cfg: Config, docs: map<string, Ddo>, did: string, ddo: Ddo)
    requires did in docs && docs[did].id == did && ddo.id == did
    requires ddo.version == docs[did].version && ddo.event == docs[did].event && ddo.services == docs[did].services
    requires ddo.content == docs[did].content
    ensures var after := Save(cfg, docs, ddo);
            && did in after && after == docs[did := after[did]] && after[did].id == did
            && after[did].version == ddo.version && after[did].event == ddo.event && after[did].services == ddo.services
            && after[did].content == ddo.content
            && (docs[did].stats.None? && ddo.stats.None? ==> after[did].stats.None?)
  {
    assert docs[did].content + ddo.content == ddo.content;
    assert docs == docs[did := docs[did]];
  }

  /** What one log does to documents that have an origin. */
  lemma OriginsStay(ix: Indexing, st: Stores, logs: seq<Log>, last: Log)
    requires forall did :: did in st.docs ==> st.docs[did].id == did && HasOrigin(logs, st.docs[did])
    ensures var docs := ProcessLog(ix, st, last).docs;
            forall did :: did in docs ==> docs[did].id == did && HasOrigin(logs + [last], docs[did])
  {
    hide HasOrigin, Bare, SavedFor, Save, Accepted, ProcessMetadata;
    var docs := ProcessLog(ix, st, last).docs;
    if last.MetadataLog? {
      MetadataSaves(ix, st.docs, last);
      OriginsKept(logs, last, st.docs);
      if docs != st.docs {
        SavedAnew(logs, last, docs[last.did]);
      }
    } else if docs == st.docs {
      OriginsKept(logs, last, st.docs);
    } else {
      StateOrOrder(ix, st, last, logs);
      OriginsKept(logs, last, st.docs);
    }
  }

  lemma OriginsKept(logs: seq<Log>, last: Log, docs: map<string, Ddo>)
    requires forall did :: did in docs ==> HasOrigin(logs, docs[did])
    ensures forall did :: did in docs ==> HasOrigin(logs + [last], docs[did])
  {
    forall did | did in docs ensures HasOrigin(logs + [last], docs[did]) {
      OriginStays(logs, last, docs[did], docs[did]);
    }
  }

  /** State and order events change one document, and keep its origin or strip it. */
  lemma StateOrOrder(ix: Indexing, st: Stores, log: Log, logs: seq<Log>)
    requires !log.MetadataLog? && ProcessLog(ix, st, log).docs != st.docs
    requires forall did :: did in st.docs ==> st.docs[did].id == did && HasOrigin(logs, st.docs[did])
    ensures var docs := ProcessLog(ix, st, log).docs;
            exists did :: did in st.docs && did in docs && docs == st.docs[did := docs[did]]
                          && docs[did].id == did && HasOrigin(logs + [log], docs[did])
  {
    hide HasOrigin, SavedFor, Save, Accepted;
    var docs := ProcessLog(ix, st, log).docs;
    var did := log.did;
    var stored := st.docs[did];
    if log.StateLog? && IsActive(stored) && (log.state == REVOKED || log.state == DEPRECATED) {
      var short := Ddo(did, ix.chainId, stored.nftAddress, None, Some(Nft(log.state, map[])), None, None, None, map[]);
      assert WithState(stored, log.state, ix.chainId) == short;
      StripSaves(ix.cfg, st.docs, short, logs, log);
    } else {
      var ddo := if log.StateLog? then WithState(stored, log.state, ix.chainId)
                 else stored.(stats := StatsOf(ix, st, log));
      assert docs == Save(ix.cfg, st.docs, ddo);
      SavesOver(ix.cfg, st.docs, did, ddo);
      OriginStays(logs, log, stored, docs[did]);
    }
  }

  function StatsOf(ix: Indexing, st: Stores, log: Log): Option<int>
    requires (log.OrderStartedLog? || log.OrderReusedLog?) && log.did in st.docs
  {
    var ddo := st.docs[log.did];
    if ddo.stats.Some? && (log.OrderReusedLog? || MatchesService(ddo, log)) then Some(ddo.stats.value + 1) else Some(1)
  }

  /** A stripped document is bare, or all that it says was there before. */
  lemma StripSaves(cfg: Config, docs: map<string, Ddo>, short: Ddo, logs: seq<Log>, last: Log)
    requires short.id in docs && docs[short.id].id == short.id && HasOrigin(logs, docs[short.id])
    requires Bare(short) && IsActive(docs[short.id]) && !IsActive(short)
    ensures var after := Save(cfg, docs, short);
            && short.id in after && after == docs[short.id := after[short.id]]
            && after[short.id].id == short.id && HasOrigin(logs + [last], after[short.id])
  {
    assert docs == docs[short.id := docs[short.id]];
    OriginStays(logs, last, docs[short.id], docs[short.id]);
    if Accepted(cfg, short) {
      var stored := docs[short.id];
      if GetDdoSchema(cfg, stored) == GetDdoSchema(cfg, short) {
        VersionedIsNotShort(stored.version.value);
      }
    }
  }

  /** In every run from an empty document store, each document has its own id and was last
      saved for a metadata event of the run, with that event's transaction, sender, block
      and time, and with all that the event's document said; or a state event has stripped
      it. */
  lemma {:induction false} DocumentsComeFromEvents(ix: Indexing, st: Stores, logs: seq<Log>)
    requires st.docs == map[]
    ensures var docs := ProcessLogs(ix, st, logs).docs;
            forall did :: did in docs ==> docs[did].id == did && HasOrigin(logs, docs[did])
  {
    if logs == [] {
    } else {
      var front, last := logs[..|logs| - 1], logs[|logs| - 1];
      assert logs == front + [last];
      DocumentsComeFromEvents(ix, st, front);
      ProcessLast(ix, st, front, last);
      hide ProcessLogs, ProcessLog, HasOrigin;
      OriginsStay(ix, ProcessLogs(ix, st, front), front, last);
    }
  }

  // ---------- which events are heeded ----------

  /** A metadata event is saved exactly if it is proved where proofs are asked for, carries
      an acceptable document of its own DID, and either creates what is not stored active or
      updates what is stored from another transaction and another block. Otherwise it
      changes nothing; other documents it never changes. */
  lemma MetadataSavedIff(ix: Indexing, docs: map<string, Ddo>, log: Log)
    requires log.MetadataLog? && forall did :: did in docs ==> docs[did].id == did
    ensures var after := ProcessMetadata(ix, docs, log);
            if && (ix.checkProofs ==> log.proved)
               && log.payload.Some? && log.payload.value.id == log.did
               && Accepted(ix.cfg, Stamped(log.payload.value, log))
               && (log.kind == MetadataCreated ==>
                     log.did !in docs || (docs[log.did].nft.Some? && docs[log.did].nft.value.state != 0))
               && (log.kind == MetadataUpdated ==>
                     && log.did in docs && docs[log.did].event.Some?
                     && docs[log.did].event.value.tx != log.tx && docs[log.did].event.value.block != log.block)
            then
              log.did in after && SavedFor(log, after[log.did]) && after == docs[log.did := after[log.did]]
            else
              after == docs
  {
    hide Accepted, Stamped;
    if ProcessMetadata(ix, docs, log) != docs {
      MetadataSaves(ix, docs, log);
    } else if log.payload.Some? && log.payload.value.id == log.did {
      StampedIsSavedFor(ix.cfg, docs, log);
    }
  }

  lemma StampedIsSavedFor(cfg: Config, docs: map<string, Ddo>, log: Log)
    requires log.MetadataLog? && log.payload.Some? && log.payload.value.id == log.did
    ensures var ddo := Stamped(log.payload.value, log);
            Accepted(cfg, ddo) ==>
              var after := Save(cfg, docs, ddo);
              log.did in after && SavedFor(log, after[log.did]) && after == docs[log.did := after[log.did]]
  {
    var ddo := Stamped(log.payload.value, log);
    if Accepted(cfg, ddo) {
      SaveMeans(cfg, docs, ddo);
    }
  }

  /** A state event of a stored DID, proved where proofs are asked for, sets the state, also
      of a document without an NFT, unless the store refuses the document it makes; any other
      changes nothing. */
  lemma StateSavedIff(ix: Indexing, docs: map<string, Ddo>, log: Log)
    requires log.StateLog? && forall did :: did in docs ==> docs[did].id == did
    ensures (ix.checkProofs && !log.proved) || log.did !in docs ==> ProcessState(ix, docs, log) == docs
    ensures (ix.checkProofs ==> log.proved) && log.did in docs ==>
              var stored, after := docs[log.did], ProcessState(ix, docs, log);
              && log.did in after && after == docs[log.did := after[log.did]]
              && ((after[log.did].nft.Some? && after[log.did].nft.value.state == log.state)
                  || (after == docs && !Accepted(ix.cfg, WithState(stored, log.state, ix.chainId))))
  {
    if (ix.checkProofs ==> log.proved) && log.did in docs {
      assert docs == docs[log.did := docs[log.did]];
    }
  }

  /** An OrderStarted event of a stored service counts: one more if the service's datatoken
      is the event's, whatever the case of its letters, and else one. Any other changes
      nothing. */
  lemma OrderStartedMeans(ix: Indexing, st: Stores, log: Log)
    requires log.OrderStartedLog? && forall did :: did in st.docs ==> st.docs[did].id == did
    ensures !HasService(st.docs, log.did, log.serviceIndex) ==> ProcessLog(ix, st, log) == st
    ensures HasService(st.docs, log.did, log.serviceIndex) ==>
              var ddo, after := st.docs[log.did], ProcessLog(ix, st, log);
              var named := ddo.services.value[log.serviceIndex].datatokenAddress;
              var count := if ddo.stats.Some? && Strings.ToLower(named) == Strings.ToLower(log.datatoken)
                           then ddo.stats.value + 1 else 1;
              && log.tx in after.orders
              && log.did in after.docs && after.docs == st.docs[log.did := after.docs[log.did]]
              && (after.docs[log.did].stats == Some(count)
                  || (after.docs == st.docs && !Accepted(ix.cfg, ddo.(stats := Some(count)))))
  {
    if HasService(st.docs, log.did, log.serviceIndex) {
      hide Strings.ToLower, Accepted;
      assert st.docs == st.docs[log.did := st.docs[log.did]];
    }
  }

  /** An OrderReused event of a start order on record counts one more, on a stored DDO that
      counts orders, and is recorded if the DDO has services. Any other changes nothing. */
  lemma OrderReusedMeans(ix: Indexing, st: Stores, log: Log)
    requires log.OrderReusedLog? && forall did :: did in st.docs ==> st.docs[did].id == did
    ensures log.did !in st.docs || st.docs[log.did].stats.None? || log.startOrderId !in st.orders ==>
              ProcessLog(ix, st, log) == st
    ensures log.did in st.docs && st.docs[log.did].stats.Some? && log.startOrderId in st.orders ==>
              var ddo, after := st.docs[log.did], ProcessLog(ix, st, log);
              var count := ddo.stats.value + 1;
              && (HasService(st.docs, log.did, 0) ==> log.tx in after.orders)
              && log.did in after.docs && after.docs == st.docs[log.did := after.docs[log.did]]
              && (after.docs[log.did].stats == Some(count)
                  || (after.docs == st.docs && !Accepted(ix.cfg, ddo.(stats := Some(count)))))
  {
    if log.did in st.docs {
      hide Accepted;
      assert st.docs == st.docs[log.did := st.docs[log.did]];
    }
  }
}
