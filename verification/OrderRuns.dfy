/** Whole runs of order events: where reuse chains end, and what is counted. */
module OrderRuns {
  import opened Options
  import opened Documents
  import opened DdoDatabases
  import opened OrderDatabases
  import opened Processors
  import Strings

  // ---------- reuse chains ----------

  /** Following startOrderId from `id` meets a start order within `steps` steps, and all
      the records on the way have one consumer. */
  predicate ChainEnds(orders: map<string, Order>, id: string, steps: nat)
    decreases steps
  {
    && id in orders
    && match orders[id].kind
       case StartOrder => true
       case ReuseOrder(start) =>
         && steps > 0
         && start in orders
         && orders[start].consumer == orders[id].consumer
         && ChainEnds(orders, start, steps - 1)
  }

  ghost predicate WellFounded(orders: map<string, Order>) {
    forall id :: id in orders ==> ChainEnds(orders, id, |orders|)
  }

  lemma {:induction false} ChainEndsInMore(orders: map<string, Order>, more: map<string, Order>, id: string,
                                           steps: nat, moreSteps: nat)
    requires ChainEnds(orders, id, steps) && steps <= moreSteps
    requires forall k :: k in orders ==> k in more && more[k] == orders[k]
    ensures ChainEnds(more, id, moreSteps)
    decreases steps
  {
    match orders[id].kind
    case StartOrder =>
    case ReuseOrder(start) => ChainEndsInMore(orders, more, start, steps - 1, moreSteps - 1);
  }

  lemma InsertKeepsWellFounded(orders: map<string, Order>, id: string, order: Order)
    requires WellFounded(orders)
    requires order.kind.ReuseOrder? ==>
               order.kind.startOrderId in orders && orders[order.kind.startOrderId].consumer == order.consumer
    ensures WellFounded(Inserted(orders, id, order))
  {
    if id !in orders {
      var more := orders[id := order];
      assert |more| == |orders| + 1;
      forall k | k in more ensures ChainEnds(more, k, |more|) {
        if k in orders {
          ChainEndsInMore(orders, more, k, |orders|, |more|);
        } else if order.kind.ReuseOrder? {
          ChainEndsInMore(orders, more, order.kind.startOrderId, |orders|, |orders|);
        }
      }
    }
  }

  /** In every order store the indexer can reach from a well-founded one, such as the
      empty one, every reuse chain ends at a start order of the same consumer. */
  lemma {:induction false} ChainsStayWellFounded(ix: Indexing, st: Stores, logs: seq<Log>)
    requires WellFounded(st.orders)
    ensures WellFounded(ProcessLogs(ix, st, logs).orders)
    decreases |logs|
  {
    if logs == [] {
    } else {
      var log := logs[0];
      if log.OrderStartedLog? && log.did in st.docs && NamedService(st.docs[log.did], log.serviceIndex).Some? {
        var service := NamedService(st.docs[log.did], log.serviceIndex).value;
        InsertKeepsWellFounded(st.orders, log.tx,
                               Order(StartOrder, log.timestamp, log.consumer, log.payer,
                                     service.datatokenAddress, log.nftAddress, log.did));
      }
      if log.OrderReusedLog? && log.did in st.docs && log.startOrderId in st.orders {
        var record := ReuseRecord(st.orders[log.startOrderId], st.docs[log.did], log);
        if record.Some? {
          InsertKeepsWellFounded(st.orders, log.tx, record.value);
        }
      }
      ChainsStayWellFounded(ix, ProcessLog(ix, st, log), logs[1..]);
    }
  }

  /** The order at the end of a chain. */
  function Root(orders: map<string, Order>, id: string, steps: nat): (root: string)
    requires ChainEnds(orders, id, steps)
    ensures root in orders && orders[root].kind.StartOrder? && orders[root].consumer == orders[id].consumer
    decreases steps
  {
    match orders[id].kind
    case StartOrder => id
    case ReuseOrder(start) => Root(orders, start, steps - 1)
  }

  // ---------- counting orders ----------

  predicate IsOrderOf(log: Log, did: string) {
    (log.OrderStartedLog? || log.OrderReusedLog?) && log.did == did
  }

  predicate AreOrdersOf(logs: seq<Log>, did: string) {
    forall i :: 0 <= i < |logs| ==> IsOrderOf(logs[i], did)
  }

  /** An order event that the node counts: a start for a service the DDO has, or the
      reuse of a start order the node knows. */
  predicate Counts(st: Stores, log: Log) {
    match log
    case OrderStartedLog(_, _, _, _, _, _, _, _) =>
      log.did in st.docs && NamedService(st.docs[log.did], log.serviceIndex).Some?
    case OrderReusedLog(_, _, _, _, _, _) => log.startOrderId in st.orders
    case _ => false
  }

  function CountedIn(ix: Indexing, st: Stores, logs: seq<Log>): nat
    decreases |logs|
  {
    if logs == [] then 0
    else (if Counts(st, logs[0]) then 1 else 0) + CountedIn(ix, ProcessLog(ix, st, logs[0]), logs[1..])
  }

  /** A start event of another datatoken than the named service's arrives while the
      DDO already counts orders. */
  predicate Resets(ix: Indexing, st: Stores, did: string, logs: seq<Log>)
    decreases |logs|
  {
    logs != [] &&
    (|| (logs[0].OrderStartedLog? && did in st.docs && Counts(st, logs[0]) && logs[0].did == did
         && !MatchesService(st.docs[did], logs[0])
         && st.docs[did].stats != Some(0))
     || Resets(ix, ProcessLog(ix, st, logs[0]), did, logs[1..]))
  }

  /** Saving the DDO with any order count succeeds. */
  ghost predicate Savable(cfg: Config, ddo: Ddo) {
    forall n :: Accepted(cfg, ddo.(stats := Some(n)))
  }

  ghost predicate Countable(ix: Indexing, st: Stores, did: string) {
    && did in st.docs && st.docs[did].id == did
    && st.docs[did].stats.Some? && st.docs[did].stats.value >= 0
    && NamedService(st.docs[did], 0).Some?
    && Savable(ix.cfg, st.docs[did])
  }

  lemma SaveStats(cfg: Config, docs: map<string, Ddo>, did: string, n: int)
    requires did in docs && docs[did].id == did && docs[did].stats.Some? && Savable(cfg, docs[did])
    ensures Save(cfg, docs, docs[did].(stats := Some(n))) == docs[did := docs[did].(stats := Some(n))]
    ensures Savable(cfg, docs[did].(stats := Some(n)))
  {
    var ddo := docs[did];
    var counted := ddo.(stats := Some(n));
    assert Accepted(cfg, counted);
    assert ddo.content + counted.content == counted.content;
    if ddo.nft.Some? {
      assert ddo.nft.value.details + counted.nft.value.details == counted.nft.value.details;
    }
    assert Patch(ddo, counted) == counted;
    forall k ensures Accepted(cfg, counted.(stats := Some(k))) {
      assert counted.(stats := Some(k)) == ddo.(stats := Some(k));
    }
  }

  /** One order event: the count rises by one exactly when the event counts, unless it
      is reset to one. */
  lemma CountStep(ix: Indexing, st: Stores, did: string, log: Log)
    requires Countable(ix, st, did) && IsOrderOf(log, did)
    ensures var after := ProcessLog(ix, st, log);
            var before := st.docs[did].stats.value;
            && Countable(ix, after, did)
            && after.docs[did].services == st.docs[did].services
            && after.docs[did].stats.value ==
               if !Counts(st, log) then before
               else if log.OrderStartedLog? && !MatchesService(st.docs[did], log) then 1
               else before + 1
  {
    hide Save, Savable, Inserted, Strings.ToLower;
    var ddo := st.docs[did];
    if log.OrderStartedLog? {
      SaveStats(ix.cfg, st.docs, did, if MatchesService(ddo, log) then ddo.stats.value + 1 else 1);
    } else {
      SaveStats(ix.cfg, st.docs, did, ddo.stats.value + 1);
    }
  }

  /** Over any run of order events on a DDO, `stats.orders` grows by the number of
      counted events exactly when no event resets it, and otherwise by less. */
  lemma {:induction false} OrdersConservedIff(ix: Indexing, st: Stores, did: string, logs: seq<Log>)
    requires Countable(ix, st, did)
    requires AreOrdersOf(logs, did)
    ensures var after := ProcessLogs(ix, st, logs);
            && Countable(ix, after, did)
            && after.docs[did].stats.value <= st.docs[did].stats.value + CountedIn(ix, st, logs)
            && (after.docs[did].stats.value == st.docs[did].stats.value + CountedIn(ix, st, logs)
                <==> !Resets(ix, st, did, logs))
    decreases |logs|
  {
    if logs == [] {
    } else {
      CountStep(ix, st, did, logs[0]);
      OrdersConservedIff(ix, ProcessLog(ix, st, logs[0]), did, logs[1..]);
    }
  }

  /** When every start event matches the service it names, nothing is ever reset. */
  lemma {:induction false} MatchingStartsNeverReset(ix: Indexing, st: Stores, did: string, logs: seq<Log>)
    requires Countable(ix, st, did)
    requires AreOrdersOf(logs, did)
    requires forall i :: 0 <= i < |logs| && logs[i].OrderStartedLog? ==> MatchesService(st.docs[did], logs[i])
    ensures !Resets(ix, st, did, logs)
    decreases |logs|
  {
    if logs == [] {
    } else {
      CountStep(ix, st, did, logs[0]);
      MatchingStartsNeverReset(ix, ProcessLog(ix, st, logs[0]), did, logs[1..]);
    }
  }

  /** Five orders, then a start event of another datatoken: one order. */
  lemma ResetLosesOrders(ix: Indexing, service: Service)
    requires ix.cfg.schemas == [SHORT_SCHEMA] && service.datatokenAddress == "0xa"
    ensures var ddo := Ddo("did", 1, "0xn", None, None, None, Some([service]), Some(5), map[]);
            var log := OrderStartedLog("did", "tx", "0xb", "0xn", 0, 0, "c", "p");
            var after := ProcessLog(ix, Stores(map["did" := ddo], map[]), log);
            "did" in after.docs && after.docs["did"].stats == Some(1)
  {
    var ddo := Ddo("did", 1, "0xn", None, None, None, Some([service]), Some(5), map[]);
    assert Strings.ToLower("0xa")[2] == 'a' && Strings.ToLower("0xb")[2] == 'b';
    SaveStats(ix.cfg, map["did" := ddo], "did", 1);
  }

  function OrdersOf(orders: map<string, Order>, did: string): set<string> {
    set id | id in orders && orders[id].did == did
  }

  /** Every order event comes from a transaction without a record, and from its own. */
  predicate FreshTransactions(orders: map<string, Order>, did: string, logs: seq<Log>)
    requires AreOrdersOf(logs, did)
  {
    && (forall i :: 0 <= i < |logs| ==> logs[i].tx !in orders)
    && (forall i, j :: 0 <= i < j < |logs| ==> logs[i].tx != logs[j].tx)
  }

  /** With transactions not seen before, the DDO's order records grow by that number too. */
  lemma {:induction false} RecordsGrowByCount(ix: Indexing, st: Stores, did: string, logs: seq<Log>)
    requires Countable(ix, st, did)
    requires AreOrdersOf(logs, did)
    requires FreshTransactions(st.orders, did, logs)
    ensures |OrdersOf(ProcessLogs(ix, st, logs).orders, did)| == |OrdersOf(st.orders, did)| + CountedIn(ix, st, logs)
    decreases |logs|
  {
    if logs == [] {
    } else {
      var log := logs[0];
      var after := ProcessLog(ix, st, log);
      CountStep(ix, st, did, log);
      RecordStep(ix, st, did, log);
      var rest := logs[1..];
      forall i | 0 <= i < |rest| ensures rest[i] == logs[i + 1] && rest[i].tx !in after.orders {
        assert rest[i] == logs[i + 1];
      }
      RecordsGrowByCount(ix, after, did, logs[1..]);
    }
  }

  lemma RecordStep(ix: Indexing, st: Stores, did: string, log: Log)
    requires Countable(ix, st, did) && IsOrderOf(log, did) && log.tx !in st.orders
    ensures var after := ProcessLog(ix, st, log).orders;
            && (forall id :: id in after ==> id in st.orders || id == log.tx)
            && OrdersOf(after, did) == OrdersOf(st.orders, did) + (if Counts(st, log) then {log.tx} else {})
            && log.tx !in OrdersOf(st.orders, did)
  {
  }

  // ---------- redelivery ----------

  /** No event is the reuse of an order that was only recorded later: every reuse of an
      order in `known` finds it when its turn comes. */
  predicate StartsComeFirst(ix: Indexing, st: Stores, known: set<string>, logs: seq<Log>)
    decreases |logs|
  {
    logs == [] ||
    (&& (logs[0].OrderReusedLog? && logs[0].startOrderId in known ==> logs[0].startOrderId in st.orders)
     && StartsComeFirst(ix, ProcessLog(ix, st, logs[0]), known, logs[1..]))
  }

  /** The same DDO in two stores, the second with all order records of the first. */
  ghost predicate SameOrdersOrMore(ix: Indexing, st: Stores, more: Stores, did: string) {
    && Countable(ix, st, did) && Countable(ix, more, did)
    && st.docs[did].services == more.docs[did].services
    && st.orders.Keys <= more.orders.Keys
  }

  lemma RecordsStay(ix: Indexing, st: Stores, did: string, log: Log)
    requires Countable(ix, st, did) && IsOrderOf(log, did)
    ensures ProcessLog(ix, st, log).orders.Keys == st.orders.Keys + if Counts(st, log) then {log.tx} else {}
    ensures !Counts(st, log) || log.tx in st.orders ==> ProcessLog(ix, st, log).orders == st.orders
  {
  }

  lemma {:induction false} RecordsGrow(ix: Indexing, st: Stores, did: string, logs: seq<Log>)
    requires Countable(ix, st, did) && AreOrdersOf(logs, did)
    ensures st.orders.Keys <= ProcessLogs(ix, st, logs).orders.Keys
    decreases |logs|
  {
    if logs == [] {
    } else {
      CountStep(ix, st, did, logs[0]);
      RecordsStay(ix, st, did, logs[0]);
      RecordsGrow(ix, ProcessLog(ix, st, logs[0]), did, logs[1..]);
    }
  }

  /** A second pass over order events, in a store that has all records of the first pass:
      it counts the same events again and adds no record, unless a start came late. */
  lemma {:induction false} SecondPassCounts(ix: Indexing, st: Stores, more: Stores, did: string, logs: seq<Log>,
                                            known: set<string>)
    requires SameOrdersOrMore(ix, st, more, did) && AreOrdersOf(logs, did)
    requires ProcessLogs(ix, st, logs).orders.Keys <= known <= more.orders.Keys
    ensures CountedIn(ix, more, logs) >= CountedIn(ix, st, logs)
    ensures !StartsComeFirst(ix, st, known, logs) ==> CountedIn(ix, more, logs) > CountedIn(ix, st, logs)
    ensures StartsComeFirst(ix, st, known, logs) && known == more.orders.Keys ==>
              CountedIn(ix, more, logs) == CountedIn(ix, st, logs) && ProcessLogs(ix, more, logs).orders == more.orders
    decreases |logs|
  {
    if logs == [] {
    } else {
      var log := logs[0];
      var st', more' := ProcessLog(ix, st, log), ProcessLog(ix, more, log);
      CountStep(ix, st, did, log);
      CountStep(ix, more, did, log);
      RecordsStay(ix, st, did, log);
      RecordsStay(ix, more, did, log);
      RecordsGrow(ix, st', did, logs[1..]);
      assert Counts(st, log) ==> log.tx in known;
      hide ProcessLog, Countable, NamedService;
      SecondPassCounts(ix, st', more', did, logs[1..], known);
    }
  }

  /** Order events delivered twice are counted twice: `stats.orders` grows by as much again
      exactly if every reuse comes after its start, and by more otherwise. In the first
      case the records stay as they are. */
  lemma RedeliveredOrdersCountAgain(ix: Indexing, st: Stores, did: string, logs: seq<Log>)
    requires Countable(ix, st, did) && AreOrdersOf(logs, did)
    requires forall i :: 0 <= i < |logs| && logs[i].OrderStartedLog? ==> MatchesService(st.docs[did], logs[i])
    ensures var once := ProcessLogs(ix, st, logs);
            var twice := ProcessLogs(ix, once, logs);
            var counted := CountedIn(ix, st, logs);
            && did in once.docs && did in twice.docs && once.docs[did].stats.Some? && twice.docs[did].stats.Some?
            && once.docs[did].stats.value == st.docs[did].stats.value + counted
            && twice.docs[did].stats.value >= once.docs[did].stats.value + counted
            && (twice.docs[did].stats.value == once.docs[did].stats.value + counted
                <==> StartsComeFirst(ix, st, once.orders.Keys, logs))
            && (StartsComeFirst(ix, st, once.orders.Keys, logs) ==> twice.orders == once.orders)
  {
    hide ProcessLogs, CountedIn, Resets, StartsComeFirst, Savable;
    var once := ProcessLogs(ix, st, logs);
    OrdersConservedIff(ix, st, did, logs);
    MatchingStartsNeverReset(ix, st, did, logs);
    ServicesStay(ix, st, did, logs);
    OrdersConservedIff(ix, once, did, logs);
    MatchingStartsNeverReset(ix, once, did, logs);
    RecordsGrow(ix, st, did, logs);
    SecondPassCounts(ix, st, once, did, logs, once.orders.Keys);
  }

  lemma {:induction false} ServicesStay(ix: Indexing, st: Stores, did: string, logs: seq<Log>)
    requires Countable(ix, st, did) && AreOrdersOf(logs, did)
    ensures var after := ProcessLogs(ix, st, logs);
            Countable(ix, after, did) && after.docs[did].services == st.docs[did].services
    decreases |logs|
  {
    if logs == [] {
    } else {
      CountStep(ix, st, did, logs[0]);
      ServicesStay(ix, ProcessLog(ix, st, logs[0]), did, logs[1..]);
    }
  }
}
