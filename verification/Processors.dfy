/** What one chain log does to the stores.

    `ProcessLog` is the effect on the two stores seen as maps; the class
    `EventProcessors` runs the handlers against the databases and meets it.
    Decryption, hashing, factory and policy checks are outside the model: a log
    carries the document they let through, or none. */
module Processors {
  import opened Options
  import opened Documents
  import opened DdoDatabases
  import opened OrderDatabases
  import Strings

  datatype MetadataKind = MetadataCreated | MetadataUpdated

  datatype Log =
      /** `payload` is the document completed with chain id, NFT address and NFT info,
          or None when an earlier check turned the event away. `proved` says whether an
          allowed validator signed it, `decodable` whether the transaction's receipt opens
          with a metadata event, which is the one the node decodes. */
    | MetadataLog(kind: MetadataKind, did: string, proved: bool, decodable: bool, payload: Option<Ddo>,
                  tx: string, from: string, contract: string, block: int, datetime: Option<string>)
    | StateLog(did: string, tx: string, proved: bool, state: int)
    | OrderStartedLog(did: string, tx: string, datatoken: string, nftAddress: string,
                      serviceIndex: nat, timestamp: int, consumer: string, payer: string)
    | OrderReusedLog(did: string, tx: string, nftAddress: string,
                     startOrderId: string, timestamp: int, payer: string)
      /** Events the node recognises but that touch no store, and events it does not know. */
    | OtherLog(tx: string)

  datatype Stores = Stores(docs: map<string, Ddo>, orders: map<string, Order>)

  datatype Indexing = Indexing(cfg: Config, chainId: int, checkProofs: bool)

  // ---------- metadata ----------

  function EventOf(log: Log): EventInfo
    requires log.MetadataLog?
  {
    EventInfo(log.tx, log.from, log.contract, if log.block != 0 then log.block else -1, log.datetime)
  }

  function Stamped(payload: Ddo, log: Log): Ddo
    requires log.MetadataLog?
  {
    payload.(event := Some(match payload.event
                           case None => EventOf(log)
                           case Some(e) => EventOf(log).(datetime := Newer(e.datetime, log.datetime))))
  }

  /** A stored DDO may be updated by an event of another transaction and another block. */
  predicate IsUpdateable(previous: EventInfo, tx: string, block: int) {
    tx != previous.tx && block != previous.block
  }

  /** Whether the handler gets as far as saving the event's document. A previous
      document without the field that is read makes the handler throw, and the
      exception is swallowed. */
  predicate MaySave(previous: Option<Ddo>, log: Log)
    requires log.MetadataLog?
  {
    match log.kind
    case MetadataCreated => previous.None? || (previous.value.nft.Some? && previous.value.nft.value.state != ACTIVE)
    case MetadataUpdated => previous.Some? && previous.value.event.Some?
                            && IsUpdateable(previous.value.event.value, log.tx, log.block)
  }

  function ProcessMetadata(ix: Indexing, docs: map<string, Ddo>, log: Log): map<string, Ddo>
    requires log.MetadataLog?
  {
    if ix.checkProofs && !log.proved then docs
    else if log.payload.None? || log.payload.value.id != log.did then docs
    else if !MaySave(Lookup(docs, log.did), log) then docs
    else Save(ix.cfg, docs, Stamped(log.payload.value, log))
  }

  // ---------- NFT state ----------

  /** The document a state event saves for a stored one. */
  function WithState(ddo: Ddo, state: int, chainId: int): Ddo {
    if ddo.nft.Some? && ddo.nft.value.state != state then
      if ddo.nft.value.state == ACTIVE && (state == REVOKED || state == DEPRECATED)
      then Ddo(ddo.id, chainId, ddo.nftAddress, None, Some(Nft(state, map[])), None, None, None, map[])
      else ddo.(nft := Some(ddo.nft.value.(state := state)))
    else ddo.(nft := Some(Nft(state, map[])))
  }

  function ProcessState(ix: Indexing, docs: map<string, Ddo>, log: Log): map<string, Ddo>
    requires log.StateLog?
  {
    if ix.checkProofs && !log.proved then docs
    else if log.did !in docs then docs
    else Save(ix.cfg, docs, WithState(docs[log.did], log.state, ix.chainId))
  }

  // ---------- orders ----------

  /** The service an OrderStarted event names. */
  function NamedService(ddo: Ddo, index: nat): Option<Service> {
    if ddo.services.Some? && index < |ddo.services.value| then Some(ddo.services.value[index]) else None
  }

  predicate MatchesService(ddo: Ddo, log: Log)
    requires log.OrderStartedLog?
  {
    var service := NamedService(ddo, log.serviceIndex);
    service.Some? && Strings.ToLower(service.value.datatokenAddress) == Strings.ToLower(log.datatoken)
  }

  function ProcessOrderStarted(ix: Indexing, st: Stores, log: Log): Stores
    requires log.OrderStartedLog?
  {
    if log.did !in st.docs || NamedService(st.docs[log.did], log.serviceIndex).None? then st
    else
      var ddo := st.docs[log.did];
      var counted := if ddo.stats.Some? && MatchesService(ddo, log) then ddo.stats.value + 1 else 1;
      var order := Order(StartOrder, log.timestamp, log.consumer, log.payer,
                         NamedService(ddo, log.serviceIndex).value.datatokenAddress, log.nftAddress, log.did);
      Stores(Save(ix.cfg, st.docs, ddo.(stats := Some(counted))), Inserted(st.orders, log.tx, order))
  }

  /** The record of a reused order: the start order's consumer, and the datatoken of
      the DDO's first service. Without services there is no record. */
  function ReuseRecord(start: Order, ddo: Ddo, log: Log): Option<Order>
    requires log.OrderReusedLog?
  {
    var service := NamedService(ddo, 0);
    if service.None? then None
    else Some(Order(ReuseOrder(log.startOrderId), log.timestamp, start.consumer, log.payer,
                    service.value.datatokenAddress, log.nftAddress, log.did))
  }

  function Recorded(orders: map<string, Order>, tx: string, order: Option<Order>): map<string, Order> {
    if order.Some? then Inserted(orders, tx, order.value) else orders
  }

  function ProcessOrderReused(ix: Indexing, st: Stores, log: Log): Stores
    requires log.OrderReusedLog?
  {
    if log.did !in st.docs || st.docs[log.did].stats.None? || log.startOrderId !in st.orders then st
    else
      var ddo := st.docs[log.did];
      Stores(Save(ix.cfg, st.docs, ddo.(stats := Some(ddo.stats.value + 1))),
             Recorded(st.orders, log.tx, ReuseRecord(st.orders[log.startOrderId], ddo, log)))
  }

  // ---------- all logs ----------

  function ProcessLog(ix: Indexing, st: Stores, log: Log): Stores {
    match log
    case MetadataLog(_, _, _, _, _, _, _, _, _, _) => st.(docs := ProcessMetadata(ix, st.docs, log))
    case StateLog(_, _, _, _) => st.(docs := ProcessState(ix, st.docs, log))
    case OrderStartedLog(_, _, _, _, _, _, _, _) => ProcessOrderStarted(ix, st, log)
    case OrderReusedLog(_, _, _, _, _, _) => ProcessOrderReused(ix, st, log)
    case OtherLog(_) => st
  }

  /** Logs folded into the stores, oldest first. */
  function ProcessLogs(ix: Indexing, st: Stores, logs: seq<Log>): Stores
    decreases |logs|
  {
    if logs == [] then st else ProcessLogs(ix, ProcessLog(ix, st, logs[0]), logs[1..])
  }

  lemma {:induction false} ProcessLogsConcat(ix: Indexing, st: Stores, a: seq<Log>, b: seq<Log>)
    ensures ProcessLogs(ix, st, a + b) == ProcessLogs(ix, ProcessLogs(ix, st, a), b)
    decreases |a|
  {
    if a == [] {
      assert a + b == b;
    } else {
      assert (a + b)[1..] == a[1..] + b;
      ProcessLogsConcat(ix, ProcessLog(ix, st, a[0]), a[1..], b);
    }
  }

  /** The handlers, run against the databases. */
  class EventProcessors {
    const ix: Indexing
    const ddoDb: DdoDatabase
    const orderDb: OrderDatabase

    ghost predicate Valid()
      reads this, ddoDb
    {
      ddoDb.cfg == ix.cfg && ddoDb.Valid()
    }

    ghost function Contents(): Stores
      reads this, ddoDb, orderDb
    {
      Stores(ddoDb.Docs(), orderDb.orders)
    }

    constructor (ix: Indexing, ddoDb: DdoDatabase, orderDb: OrderDatabase)
      requires ddoDb.cfg == ix.cfg && ddoDb.Valid()
      ensures this.ix == ix && this.ddoDb == ddoDb && this.orderDb == orderDb
      ensures Valid()
    {
      this.ix, this.ddoDb, this.orderDb := ix, ddoDb, orderDb;
    }

    method ProcessMetadataEvent(log: Log)
      requires log.MetadataLog? && (ix.checkProofs ==> log.proved)
      requires Valid()
      modifies ddoDb
      ensures Valid()
      ensures ddoDb.Docs() == ProcessMetadata(ix, old(ddoDb.Docs()), log)
    {
      hide Sound, Save, Accepted;
      if log.payload.None? || log.payload.value.id != log.did {
        return;
      }
      var ddo := log.payload.value;
      var previous := ddoDb.Retrieve(ddo.id);
      if log.kind == MetadataCreated {
        if previous.Some? && (previous.value.nft.None? || IsActive(previous.value)) {
          return;
        }
      }
      if log.kind == MetadataUpdated {
        if previous.None? || previous.value.event.None? {
          return;
        }
        if !IsUpdateable(previous.value.event.value, log.tx, log.block) {
          return;
        }
      }
      var event := if ddo.event.Some? then ddo.event.value else EventOf(log);
      event := event.(tx := log.tx, from := log.from, contract := log.contract);
      event := event.(block := if log.block != 0 then log.block else -1);
      if log.datetime.Some? {
        event := event.(datetime := log.datetime);
      }
      ddo := ddo.(event := Some(event));
      assert ddo == Stamped(log.payload.value, log);
      var _ := ddoDb.Update(ddo);
    }

    method ProcessMetadataStateEvent(log: Log)
      requires log.StateLog? && (ix.checkProofs ==> log.proved)
      requires Valid()
      modifies ddoDb
      ensures Valid()
      ensures ddoDb.Docs() == ProcessState(ix, old(ddoDb.Docs()), log)
    {
      hide Sound, Save, Accepted;
      var found := ddoDb.Retrieve(log.did);
      if found.None? {
        return;
      }
      var ddo := found.value;
      if ddo.nft.Some? && ddo.nft.value.state != log.state {
        var short: Option<Ddo> := None;
        if IsActive(ddo) && (log.state == REVOKED || log.state == DEPRECATED) {
          short := Some(Ddo(ddo.id, ix.chainId, ddo.nftAddress, None, Some(Nft(log.state, map[])),
                            None, None, None, map[]));
        }
        ddo := ddo.(nft := Some(ddo.nft.value.(state := log.state)));
        if short.Some? {
          ddo := short.value;
        }
      } else {
        ddo := ddo.(nft := Some(Nft(log.state, map[])));
      }
      var _ := ddoDb.Update(ddo);
    }

    method ProcessOrderStartedEvent(log: Log)
      requires log.OrderStartedLog?
      requires Valid()
      modifies ddoDb, orderDb
      ensures Valid()
      ensures Contents() == ProcessOrderStarted(ix, old(Contents()), log)
    {
      hide Sound, Save, Accepted;
      var found := ddoDb.Retrieve(log.did);
      if found.None? {
        return;
      }
      var ddo := found.value;
      var service := NamedService(ddo, log.serviceIndex);
      if service.None? {
        return;
      }
      if ddo.stats.Some? && Strings.ToLower(service.value.datatokenAddress) == Strings.ToLower(log.datatoken) {
        ddo := ddo.(stats := Some(ddo.stats.value + 1));
      } else {
        ddo := ddo.(stats := Some(1));
      }
      var order := Order(StartOrder, log.timestamp, log.consumer, log.payer,
                         service.value.datatokenAddress, log.nftAddress, log.did);
      ghost var before := Contents();
      assert ProcessOrderStarted(ix, before, log)
          == Stores(Save(ix.cfg, before.docs, ddo), Inserted(before.orders, log.tx, order));
      RecordOrder(log.tx, Some(order), ddo);
    }

    /** Create the order record, if there is one, and save the DDO. */
    method RecordOrder(tx: string, order: Option<Order>, ddo: Ddo)
      requires Valid()
      modifies ddoDb, orderDb
      ensures Valid()
      ensures ddoDb.Docs() == Save(ix.cfg, old(ddoDb.Docs()), ddo)
      ensures orderDb.orders == Recorded(old(orderDb.orders), tx, order)
    {
      hide Sound;
      if order.Some? {
        orderDb.Create(tx, order.value);
      }
      var _ := ddoDb.Update(ddo);
    }

    method ProcessOrderReusedEvent(log: Log)
      requires log.OrderReusedLog?
      requires Valid()
      modifies ddoDb, orderDb
      ensures Valid()
      ensures Contents() == ProcessOrderReused(ix, old(Contents()), log)
    {
      hide Sound, Save, Accepted;
      var found := ddoDb.Retrieve(log.did);
      if found.None? || found.value.stats.None? {
        return;
      }
      var ddo := found.value;
      ddo := ddo.(stats := Some(ddo.stats.value + 1));
      var startOrder := orderDb.Retrieve(log.startOrderId);
      if startOrder.None? {
        return;
      }
      var service := NamedService(ddo, 0);
      var order: Option<Order> := None;
      if service.Some? {
        order := Some(Order(ReuseOrder(log.startOrderId), log.timestamp, startOrder.value.consumer,
                            log.payer, service.value.datatokenAddress, log.nftAddress, log.did));
      }
      ghost var before := Contents();
      assert ProcessOrderReused(ix, before, log)
          == Stores(Save(ix.cfg, before.docs, ddo), Recorded(before.orders, log.tx, order));
      RecordOrder(log.tx, order, ddo);
    }

    /** processChunkLogs. `throwsAt` is the log whose handling throws, if one does: the
        logs before it stay applied, it and the rest are not. */
    method ProcessChunkLogs(logs: seq<Log>, throwsAt: nat) returns (completed: bool)
      requires Valid()
      modifies ddoDb, orderDb
      ensures Valid()
      ensures completed <==> throwsAt >= |logs|
      ensures Contents() == ProcessLogs(ix, old(Contents()), if throwsAt < |logs| then logs[..throwsAt] else logs)
    {
      hide Sound;
      var i := 0;
      while i < |logs|
        invariant 0 <= i <= |logs| && i <= throwsAt
        invariant Valid()
        invariant Contents() == ProcessLogs(ix, old(Contents()), logs[..i])
      {
        if i == throwsAt {
          return false;
        }
        var log := logs[i];
        assert logs[..i + 1] == logs[..i] + [log];
        ProcessLogsConcat(ix, old(Contents()), logs[..i], [log]);
        ProcessEvent(log);
        i := i + 1;
      }
      assert logs[..i] == logs;
      return true;
    }

    method ProcessEvent(log: Log)
      requires Valid()
      modifies ddoDb, orderDb
      ensures Valid()
      ensures Contents() == ProcessLog(ix, old(Contents()), log)
    {
      hide Sound;
      if (log.MetadataLog? || log.StateLog?) && ix.checkProofs && !log.proved {
        return;
      }
      match log {
        case MetadataLog(_, _, _, _, _, _, _, _, _, _) => ProcessMetadataEvent(log);
        case StateLog(_, _, _, _) => ProcessMetadataStateEvent(log);
        case OrderStartedLog(_, _, _, _, _, _, _, _) => ProcessOrderStartedEvent(log);
        case OrderReusedLog(_, _, _, _, _, _) => ProcessOrderReusedEvent(log);
        case OtherLog(_) =>
      }
    }
  }
}
