/** The document store of DDOs: one document per DID, kept in one of several
    collections that the document's NFT state and version choose.

    `DdoDatabase` is the store as the program runs it, over the collections.
    `Save`, `Contents` and the lemmas below say what it amounts to: one map from
    DID to document. Typesense and Elasticsearch share every line of it except
    that `create` inserts in one and indexes (overwrites) in the other. */
module DdoDatabases {
  import opened Options
  import opened Documents

  datatype Engine = Typesense | Elasticsearch

  datatype Config = Config(engine: Engine, schemas: seq<string>, validates: Ddo -> bool)

  type Collections = map<string, map<string, Ddo>>

  /** What a save gives back: the stored document, null, or an exception because no
      schema fits. */
  datatype Outcome = Stored(doc: Ddo) | Rejected | NoSchema

  const SHORT_SCHEMA := "op_ddo_short"

  function SchemaName(ddo: Ddo): Option<string> {
    if !IsActive(ddo) then Some(SHORT_SCHEMA)
    else if ddo.version.Some? && ddo.version.value != "" then Some("op_ddo_v" + ddo.version.value)
    else None
  }

  function GetDdoSchema(cfg: Config, ddo: Ddo): Option<string> {
    var name := SchemaName(ddo);
    if name.Some? && name.value in cfg.schemas then name else None
  }

  predicate Validated(cfg: Config, ddo: Ddo) {
    IsActive(ddo) ==> cfg.validates(ddo)
  }

  /** A document that the store takes: some schema fits and validation passes. */
  predicate Accepted(cfg: Config, ddo: Ddo) {
    GetDdoSchema(cfg, ddo).Some? && Validated(cfg, ddo)
  }

  // ---------- the store as one map ----------

  /** Saving into one map: merge while the shard stays the same, replace otherwise. */
  function Save(cfg: Config, docs: map<string, Ddo>, ddo: Ddo): map<string, Ddo> {
    if !Accepted(cfg, ddo) then docs
    else if ddo.id in docs && GetDdoSchema(cfg, docs[ddo.id]) == GetDdoSchema(cfg, ddo)
    then docs[ddo.id := Patch(docs[ddo.id], ddo)]
    else docs[ddo.id := ddo]
  }

  // ---------- the collections ----------

  function Holder(schemas: seq<string>, cs: Collections, did: string): Option<string> {
    if schemas == [] then None
    else if schemas[0] in cs && did in cs[schemas[0]] then Some(schemas[0])
    else Holder(schemas[1..], cs, did)
  }

  function Retrieved(cfg: Config, cs: Collections, did: string): (found: Option<Ddo>) {
    var holder := Holder(cfg.schemas, cs, did);
    HolderHolds(cfg.schemas, cs, did);
    if holder.Some? then Some(cs[holder.value][did]) else None
  }

  lemma {:induction false} HolderHolds(schemas: seq<string>, cs: Collections, did: string)
    ensures var h := Holder(schemas, cs, did);
            && (h.Some? ==> h.value in schemas && h.value in cs && did in cs[h.value])
            && (h.None? ==> forall s :: s in schemas && s in cs ==> did !in cs[s])
  {
    if schemas == [] || (schemas[0] in cs && did in cs[schemas[0]]) {
    } else {
      HolderHolds(schemas[1..], cs, did);
    }
  }

  function AllIds(cs: Collections): set<string> {
    set s, did | s in cs && did in cs[s] :: did
  }

  /** What a reader sees: each DID with the document `retrieve` finds for it. */
  function Contents(cfg: Config, cs: Collections): map<string, Ddo> {
    map did | did in AllIds(cs) && Retrieved(cfg, cs, did).Some? :: Retrieved(cfg, cs, did).value
  }

  ghost predicate HasCollections(cfg: Config, cs: Collections) {
    forall s :: s in cs <==> s in cfg.schemas
  }

  ghost predicate AtMostOnce(cs: Collections) {
    forall did, s, t :: s in cs && t in cs && did in cs[s] && did in cs[t] ==> s == t
  }

  ghost predicate WellPlaced(cfg: Config, cs: Collections) {
    forall s, did :: s in cs && did in cs[s] ==>
      cs[s][did].id == did && GetDdoSchema(cfg, cs[s][did]) == Some(s)
  }

  ghost predicate Sound(cfg: Config, cs: Collections) {
    HasCollections(cfg, cs) && AtMostOnce(cs) && WellPlaced(cfg, cs)
  }

  lemma LookupContents(cfg: Config, cs: Collections, did: string)
    ensures Lookup(Contents(cfg, cs), did) == Retrieved(cfg, cs, did)
  {
    HolderHolds(cfg.schemas, cs, did);
  }

  /** Under the invariant a reader finds the document wherever it lies, in whatever
      order the schemas are tried. */
  lemma RetrieveFinds(cfg: Config, cs: Collections, s: string, did: string)
    requires Sound(cfg, cs) && s in cs && did in cs[s]
    ensures Retrieved(cfg, cs, did) == Some(cs[s][did])
    ensures did in Contents(cfg, cs) && Contents(cfg, cs)[did] == cs[s][did]
  {
    HolderHolds(cfg.schemas, cs, did);
    LookupContents(cfg, cs, did);
  }

  /** Under the invariant a document that a reader sees lies in the collection that
      its own state and version choose, and in no other. */
  lemma RetrieveWellPlaced(cfg: Config, cs: Collections, did: string)
    requires Sound(cfg, cs) && did in Contents(cfg, cs)
    ensures var doc := Contents(cfg, cs)[did];
            var s := GetDdoSchema(cfg, doc);
            && doc.id == did && s.Some? && s.value in cs && Lookup(cs[s.value], did) == Some(doc)
            && forall t :: t in cs && t != s.value ==> did !in cs[t]
  {
    HolderHolds(cfg.schemas, cs, did);
    LookupContents(cfg, cs, did);
  }

  ghost predicate AgreeOn(cs: Collections, after: Collections, did: string) {
    forall s :: (s in cs <==> s in after) && (s in cs ==> Lookup(cs[s], did) == Lookup(after[s], did))
  }

  lemma {:induction false} HolderAgrees(schemas: seq<string>, cs: Collections, after: Collections, did: string)
    requires AgreeOn(cs, after, did)
    ensures Holder(schemas, cs, did) == Holder(schemas, after, did)
  {
    if schemas == [] {
    } else {
      var s := schemas[0];
      assert s in cs ==> Lookup(cs[s], did) == Lookup(after[s], did);
      HolderAgrees(schemas[1..], cs, after, did);
    }
  }

  lemma ContentsAgree(cfg: Config, cs: Collections, after: Collections, did: string)
    requires AgreeOn(cs, after, did)
    ensures Lookup(Contents(cfg, cs), did) == Lookup(Contents(cfg, after), did)
  {
    HolderAgrees(cfg.schemas, cs, after, did);
    HolderHolds(cfg.schemas, cs, did);
    LookupContents(cfg, cs, did);
    LookupContents(cfg, after, did);
    var h := Holder(cfg.schemas, cs, did);
    assert h.Some? ==> Lookup(cs[h.value], did) == Lookup(after[h.value], did);
  }

  function Removed(cs: Collections, s: string, did: string): Collections
    requires s in cs
  {
    cs[s := cs[s] - {did}]
  }

  function Put(cs: Collections, s: string, ddo: Ddo): Collections
    requires s in cs
  {
    cs[s := cs[s][ddo.id := ddo]]
  }

  lemma PutIsSound(cfg: Config, cs: Collections, s: string, ddo: Ddo)
    requires Sound(cfg, cs) && s in cs
    requires GetDdoSchema(cfg, ddo) == Some(s)
    requires forall t :: t in cs && t != s ==> ddo.id !in cs[t]
    ensures Sound(cfg, Put(cs, s, ddo))
    ensures Contents(cfg, Put(cs, s, ddo)) == Contents(cfg, cs)[ddo.id := ddo]
  {
    PutStaysSound(cfg, cs, s, ddo);
    hide Sound;
    var after := Put(cs, s, ddo);
    forall did
      ensures Lookup(Contents(cfg, after), did) == Lookup(Contents(cfg, cs)[ddo.id := ddo], did)
    {
      if did == ddo.id {
        RetrieveFinds(cfg, after, s, did);
      } else {
        assert AgreeOn(cs, after, did);
        ContentsAgree(cfg, cs, after, did);
      }
    }
    SameMap(Contents(cfg, after), Contents(cfg, cs)[ddo.id := ddo]);
  }

  lemma PutStaysSound(cfg: Config, cs: Collections, s: string, ddo: Ddo)
    requires Sound(cfg, cs) && s in cs
    requires GetDdoSchema(cfg, ddo) == Some(s)
    requires forall t :: t in cs && t != s ==> ddo.id !in cs[t]
    ensures Sound(cfg, Put(cs, s, ddo))
  {
    hide GetDdoSchema;
  }

  /** Taking a set of documents out of one collection. */
  lemma TakeOut(cfg: Config, cs: Collections, s: string, gone: set<string>)
    requires Sound(cfg, cs) && s in cs && (forall did :: did in gone ==> did in cs[s])
    ensures Sound(cfg, cs[s := cs[s] - gone])
    ensures Contents(cfg, cs[s := cs[s] - gone]) == Contents(cfg, cs) - gone
  {
    var after := cs[s := cs[s] - gone];
    TakeOutIsSound(cfg, cs, s, gone);
    hide Sound;
    forall did
      ensures Lookup(Contents(cfg, after), did) == Lookup(Contents(cfg, cs) - gone, did)
    {
      if did in gone {
        HolderHolds(cfg.schemas, after, did);
        LookupContents(cfg, after, did);
      } else {
        assert AgreeOn(cs, after, did);
        ContentsAgree(cfg, cs, after, did);
      }
    }
    SameMap(Contents(cfg, after), Contents(cfg, cs) - gone);
  }

  lemma TakeOutIsSound(cfg: Config, cs: Collections, s: string, gone: set<string>)
    requires Sound(cfg, cs) && s in cs
    ensures Sound(cfg, cs[s := cs[s] - gone])
  {
    hide GetDdoSchema;
  }

  lemma SameMap<V>(a: map<string, V>, b: map<string, V>)
    requires forall k :: Lookup(a, k) == Lookup(b, k)
    ensures a == b
  {
    forall k
      ensures k in a <==> k in b
      ensures k in a ==> a[k] == b[k]
    {
      assert Lookup(a, k) == Lookup(b, k);
    }
  }

  // ---------- the operations on the collections ----------

  function Created(cfg: Config, cs: Collections, ddo: Ddo): (Collections, Outcome)
    requires HasCollections(cfg, cs)
  {
    var schema := GetDdoSchema(cfg, ddo);
    if schema.None? then (cs, NoSchema)
    else if !Validated(cfg, ddo) then (cs, Rejected)
    else if cfg.engine.Typesense? && ddo.id in cs[schema.value] then (cs, Rejected)
    else (Put(cs, schema.value, ddo), Stored(ddo))
  }

  function Deleted(cfg: Config, cs: Collections, did: string): (after: Collections)
    ensures HasCollections(cfg, cs) ==> HasCollections(cfg, after)
  {
    var holder := Holder(cfg.schemas, cs, did);
    HolderHolds(cfg.schemas, cs, did);
    if holder.Some? then Removed(cs, holder.value, did) else cs
  }

  function Updated(cfg: Config, cs: Collections, ddo: Ddo): (Collections, Outcome)
    requires HasCollections(cfg, cs)
  {
    var schema := GetDdoSchema(cfg, ddo);
    if schema.None? then (cs, NoSchema)
    else if !Validated(cfg, ddo) then (cs, Rejected)
    else if ddo.id in cs[schema.value] then
      var merged := Patch(cs[schema.value][ddo.id], ddo);
      (Put(cs, schema.value, merged), Stored(merged))
    else Created(cfg, Deleted(cfg, cs, ddo.id), ddo)
  }

  /** The documents of a chain in one collection. */
  function OfChain(docs: map<string, Ddo>, chainId: int): set<string> {
    set did | did in docs && docs[did].chainId == chainId
  }

  /** deleteByChainId over the collections of `schemas` in turn. */
  function ChainCleared(schemas: seq<string>, cs: Collections, chainId: int): (Collections, nat) {
    if schemas == [] then (cs, 0)
    else if schemas[0] !in cs then ChainCleared(schemas[1..], cs, chainId)
    else
      var gone := OfChain(cs[schemas[0]], chainId);
      var (rest, n) := ChainCleared(schemas[1..], cs[schemas[0] := cs[schemas[0]] - gone], chainId);
      (rest, |gone| + n)
  }

  // ---------- the store refines one map ----------

  /** A patch within a shard leaves the document in that shard. */
  lemma PatchKeepsSchema(cfg: Config, stored: Ddo, patch: Ddo)
    requires GetDdoSchema(cfg, stored) == GetDdoSchema(cfg, patch)
    requires GetDdoSchema(cfg, patch).Some?
    ensures GetDdoSchema(cfg, Patch(stored, patch)) == GetDdoSchema(cfg, patch)
    ensures IsActive(Patch(stored, patch)) == IsActive(patch)
  {
    if IsActive(patch) {
      VersionedIsNotShort(patch.version.value);
    } else if IsActive(stored) {
      VersionedIsNotShort(stored.version.value);
    }
  }

  lemma VersionedIsNotShort(version: string)
    ensures "op_ddo_v" + version != SHORT_SCHEMA
  {
    assert ("op_ddo_v" + version)[7] != SHORT_SCHEMA[7];
  }

  /** What `create` answers, and stores: nothing that the store does not take, and on
      Typesense nothing under an id that its collection has. */
  lemma CreateMeans(cfg: Config, cs: Collections, ddo: Ddo)
    requires HasCollections(cfg, cs)
    ensures var (after, outcome) := Created(cfg, cs, ddo);
            var schema := GetDdoSchema(cfg, ddo);
            && (outcome == NoSchema <==> schema.None?)
            && (outcome.Stored? <==>
                  Accepted(cfg, ddo) && (cfg.engine == Elasticsearch || ddo.id !in cs[schema.value]))
            && (!outcome.Stored? ==> after == cs)
            && (outcome.Stored? ==>
                  && outcome.doc == ddo
                  && after == cs[schema.value := cs[schema.value][ddo.id := ddo]])
  {
  }

  /** `delete` removes the DID from the map, and nothing else. */
  lemma DeleteRefinesMap(cfg: Config, cs: Collections, did: string)
    requires Sound(cfg, cs)
    ensures Sound(cfg, Deleted(cfg, cs, did))
    ensures Contents(cfg, Deleted(cfg, cs, did)) == Contents(cfg, cs) - {did}
    ensures forall s :: s in Deleted(cfg, cs, did) ==> did !in Deleted(cfg, cs, did)[s]
  {
    var holder := Holder(cfg.schemas, cs, did);
    HolderHolds(cfg.schemas, cs, did);
    if holder.Some? {
      TakeOut(cfg, cs, holder.value, {did});
    } else {
      LookupContents(cfg, cs, did);
      assert Contents(cfg, cs) - {did} == Contents(cfg, cs);
    }
  }

  /** `update` keeps the invariant and is `Save` on the map, whichever shard the
      document was in and whichever it goes to. */
  lemma UpdateRefinesMap(cfg: Config, cs: Collections, ddo: Ddo)
    requires Sound(cfg, cs)
    ensures var (after, outcome) := Updated(cfg, cs, ddo);
            && Sound(cfg, after)
            && Contents(cfg, after) == Save(cfg, Contents(cfg, cs), ddo)
            && (outcome.Stored? <==> Accepted(cfg, ddo))
            && (outcome.Stored? ==> Lookup(Contents(cfg, after), ddo.id) == Some(outcome.doc))
  {
    if Accepted(cfg, ddo) {
      var s := GetDdoSchema(cfg, ddo).value;
      if ddo.id in cs[s] {
        RetrieveFinds(cfg, cs, s, ddo.id);
        PatchKeepsSchema(cfg, cs[s][ddo.id], ddo);
        PutIsSound(cfg, cs, s, Patch(cs[s][ddo.id], ddo));
      } else {
        UpdateByMoving(cfg, cs, ddo);
      }
    }
  }

  /** One map laid over another: the leaves of both, with the values of the upper one where
      it has any. */
  ghost predicate Overlays(after: map<string, string>, stored: map<string, string>, upper: map<string, string>) {
    && (forall k :: k in after <==> k in stored || k in upper)
    && (forall k :: k in upper ==> k in after && after[k] == upper[k])
    && (forall k :: k in stored && k !in upper ==> k in after && after[k] == stored[k])
  }

  /** What a save leaves in the map: other documents stay; a document that is new, or moves
      to another shard, is stored as it came; within a shard what the update names is
      replaced, down to single leaves, and what it does not name stays. */
  lemma SaveMeans(cfg: Config, docs: map<string, Ddo>, ddo: Ddo)
    requires Accepted(cfg, ddo)
    ensures var after := Save(cfg, docs, ddo);
            && after.Keys == docs.Keys + {ddo.id}
            && (forall did :: did in docs && did != ddo.id ==> after[did] == docs[did])
            && (ddo.id !in docs || GetDdoSchema(cfg, docs[ddo.id]) != GetDdoSchema(cfg, ddo) ==> after[ddo.id] == ddo)
    ensures ddo.id in docs && GetDdoSchema(cfg, docs[ddo.id]) == GetDdoSchema(cfg, ddo) ==>
              var stored, after := docs[ddo.id], Save(cfg, docs, ddo)[ddo.id];
              && after.id == ddo.id && after.chainId == ddo.chainId && after.nftAddress == ddo.nftAddress
              && after.version == (if ddo.version.Some? then ddo.version else stored.version)
              && after.services == (if ddo.services.Some? then ddo.services else stored.services)
              && after.stats == (if ddo.stats.Some? then ddo.stats else stored.stats)
              && Overlays(after.content, stored.content, ddo.content)
    ensures ddo.id in docs && GetDdoSchema(cfg, docs[ddo.id]) == GetDdoSchema(cfg, ddo) ==>
              var stored, after := docs[ddo.id], Save(cfg, docs, ddo)[ddo.id];
              && (ddo.nft.None? ==> after.nft == stored.nft)
              && (ddo.nft.Some? ==>
                    && after.nft.Some? && after.nft.value.state == ddo.nft.value.state
                    && Overlays(after.nft.value.details, if stored.nft.Some? then stored.nft.value.details else map[],
                                ddo.nft.value.details))
              && (ddo.event.None? ==> after.event == stored.event)
              && (ddo.event.Some? ==>
                    && after.event.Some? && after.event.value.tx == ddo.event.value.tx
                    && after.event.value.from == ddo.event.value.from
                    && after.event.value.contract == ddo.event.value.contract
                    && after.event.value.block == ddo.event.value.block
                    && after.event.value.datetime == (if ddo.event.value.datetime.Some? then ddo.event.value.datetime
                                                      else if stored.event.Some? then stored.event.value.datetime
                                                      else None))
  {
  }

  /** Which documents the store takes: an active one needs a version with a collection, and
      has to pass validation; any other needs the short collection alone. */
  lemma AcceptedIff(cfg: Config, ddo: Ddo)
    ensures Accepted(cfg, ddo) <==>
              if ddo.nft.Some? && ddo.nft.value.state == 0 then
                && ddo.version.Some? && ddo.version.value != "" && "op_ddo_v" + ddo.version.value in cfg.schemas
                && cfg.validates(ddo)
              else
                "op_ddo_short" in cfg.schemas
  {
  }

  lemma UpdateByMoving(cfg: Config, cs: Collections, ddo: Ddo)
    requires Sound(cfg, cs) && Accepted(cfg, ddo)
    requires ddo.id !in cs[GetDdoSchema(cfg, ddo).value]
    ensures var (after, outcome) := Updated(cfg, cs, ddo);
            && Sound(cfg, after) && outcome == Stored(ddo)
            && Contents(cfg, after) == Save(cfg, Contents(cfg, cs), ddo)
            && Lookup(Contents(cfg, after), ddo.id) == Some(ddo)
  {
    var s := GetDdoSchema(cfg, ddo).value;
    var without := Deleted(cfg, cs, ddo.id);
    DeleteRefinesMap(cfg, cs, ddo.id);
    assert Updated(cfg, cs, ddo) == (Put(without, s, ddo), Stored(ddo));
    PutIsSound(cfg, without, s, ddo);
    MovingReplaces(cfg, cs, ddo);
  }

  lemma MovingReplaces(cfg: Config, cs: Collections, ddo: Ddo)
    requires Sound(cfg, cs) && Accepted(cfg, ddo)
    requires ddo.id !in cs[GetDdoSchema(cfg, ddo).value]
    ensures (Contents(cfg, cs) - {ddo.id})[ddo.id := ddo] == Save(cfg, Contents(cfg, cs), ddo)
  {
    var docs := Contents(cfg, cs);
    if ddo.id in docs {
      RetrieveWellPlaced(cfg, cs, ddo.id);
    }
    assert (docs - {ddo.id})[ddo.id := ddo] == docs[ddo.id := ddo];
  }

  /** `create` keeps the invariant exactly when it does not add a second copy of a
      document that another collection holds. */
  lemma CreateKeepsSoundnessIff(cfg: Config, cs: Collections, ddo: Ddo)
    requires Sound(cfg, cs)
    ensures Sound(cfg, Created(cfg, cs, ddo).0) <==>
              (Accepted(cfg, ddo) && ddo.id in Contents(cfg, cs) ==>
                 GetDdoSchema(cfg, Contents(cfg, cs)[ddo.id]) == GetDdoSchema(cfg, ddo))
    ensures ddo.id !in Contents(cfg, cs) && Accepted(cfg, ddo) ==>
              Contents(cfg, Created(cfg, cs, ddo).0) == Contents(cfg, cs)[ddo.id := ddo]
  {
    if Accepted(cfg, ddo) {
      var s := GetDdoSchema(cfg, ddo).value;
      if ddo.id !in Contents(cfg, cs) {
        forall t | t in cs ensures ddo.id !in cs[t] {
          if ddo.id in cs[t] { RetrieveFinds(cfg, cs, t, ddo.id); }
        }
        PutIsSound(cfg, cs, s, ddo);
      } else {
        RetrieveWellPlaced(cfg, cs, ddo.id);
        if ddo.id in cs[s] {
          PutIsSound(cfg, cs, s, ddo);
        } else {
          var t := GetDdoSchema(cfg, Contents(cfg, cs)[ddo.id]).value;
          var after := Created(cfg, cs, ddo).0;
          assert ddo.id in after[s] && ddo.id in after[t] && s != t;
        }
      }
    }
  }

  /** deleteAllAssetsFromChain removes exactly the chain's documents and returns how
      many there were. */
  lemma ClearChainRefinesMap(cfg: Config, cs: Collections, chainId: int)
    requires Sound(cfg, cs)
    ensures var (after, n) := ChainCleared(cfg.schemas, cs, chainId);
            var docs := Contents(cfg, cs);
            && Sound(cfg, after)
            && Contents(cfg, after) == docs - OfChain(docs, chainId)
            && n == |OfChain(docs, chainId)|
  {
    ClearSome(cfg, cfg.schemas, cs, chainId);
    var docs := Contents(cfg, cs);
    forall did | did in docs
      ensures GetDdoSchema(cfg, docs[did]).Some? && GetDdoSchema(cfg, docs[did]).value in cfg.schemas
    {
      RetrieveWellPlaced(cfg, cs, did);
    }
    assert OfChainIn(cfg, docs, chainId, cfg.schemas) == OfChain(docs, chainId);
  }

  /** The chain's documents that lie in one of `schemas`. */
  function OfChainIn(cfg: Config, docs: map<string, Ddo>, chainId: int, schemas: seq<string>): set<string> {
    set did | did in docs && docs[did].chainId == chainId
              && GetDdoSchema(cfg, docs[did]).Some? && GetDdoSchema(cfg, docs[did]).value in schemas
  }

  lemma {:induction false} ClearSome(cfg: Config, schemas: seq<string>, cs: Collections, chainId: int)
    requires Sound(cfg, cs)
    requires forall s :: s in schemas ==> s in cfg.schemas
    ensures var (after, n) := ChainCleared(schemas, cs, chainId);
            var docs := Contents(cfg, cs);
            var gone := OfChainIn(cfg, docs, chainId, schemas);
            && Sound(cfg, after) && Contents(cfg, after) == docs - gone && n == |gone|
    decreases |schemas|
  {
    var docs := Contents(cfg, cs);
    if schemas == [] {
      assert OfChainIn(cfg, docs, chainId, []) == {};
      assert docs - {} == docs;
    } else {
      var s := schemas[0];
      var gone := OfChain(cs[s], chainId);
      var next := cs[s := cs[s] - gone];
      var rest := OfChainIn(cfg, docs - gone, chainId, schemas[1..]);
      assert ChainCleared(schemas, cs, chainId)
          == (ChainCleared(schemas[1..], next, chainId).0,
              |gone| + ChainCleared(schemas[1..], next, chainId).1);
      assert OfChainIn(cfg, docs, chainId, schemas) == gone + rest && gone !! rest by {
        ChainSplits(cfg, schemas, cs, chainId);
      }
      TakeOut(cfg, cs, s, gone);
      ClearSome(cfg, schemas[1..], next, chainId);
      RemoveTwice(docs, gone, rest);
    }
  }

  lemma ChainSplits(cfg: Config, schemas: seq<string>, cs: Collections, chainId: int)
    requires Sound(cfg, cs) && schemas != [] && schemas[0] in cs
    ensures var docs := Contents(cfg, cs);
            var gone := OfChain(cs[schemas[0]], chainId);
            var rest := OfChainIn(cfg, docs - gone, chainId, schemas[1..]);
            gone !! rest && OfChainIn(cfg, docs, chainId, schemas) == gone + rest
  {
    var docs := Contents(cfg, cs);
    var gone := OfChain(cs[schemas[0]], chainId);
    var rest := OfChainIn(cfg, docs - gone, chainId, schemas[1..]);
    var all := OfChainIn(cfg, docs, chainId, schemas);
    forall did ensures did in all <==> did in gone + rest {
      if did in docs { RetrieveWellPlaced(cfg, cs, did); }
      if did in gone { RetrieveFinds(cfg, cs, schemas[0], did); }
    }
  }

  lemma RemoveTwice<V>(m: map<string, V>, a: set<string>, b: set<string>)
    requires a !! b
    ensures m - a - b == m - (a + b)
    ensures |a + b| == |a| + |b|
  {
  }

  // ---------- the store as the program runs it ----------

  class DdoDatabase {
    const cfg: Config
    var collections: Collections

    ghost predicate Valid()
      reads this
    {
      Sound(cfg, collections)
    }

    ghost function Docs(): map<string, Ddo>
      reads this
    {
      Contents(cfg, collections)
    }

    constructor (cfg: Config)
      ensures Valid() && this.cfg == cfg && Docs() == map[]
    {
      this.cfg := cfg;
      collections := map s | s in cfg.schemas :: map[];
    }

    /** `update`: patch in place, or on "not found" delete elsewhere and create. */
    method Update(ddo: Ddo) returns (r: Outcome)
      requires Valid()
      modifies this
      ensures Valid()
      ensures Docs() == Save(cfg, old(Docs()), ddo)
      ensures r.Stored? <==> Accepted(cfg, ddo)
      ensures r.Stored? ==> Lookup(Docs(), ddo.id) == Some(r.doc)
    {
      UpdateRefinesMap(cfg, collections, ddo);
      var schema := GetDdoSchema(cfg, ddo);
      if schema.None? {
        return NoSchema;
      }
      if !Validated(cfg, ddo) {
        return Rejected;
      }
      var documents := collections[schema.value];
      if ddo.id in documents {
        var merged := Patch(documents[ddo.id], ddo);
        collections := Put(collections, schema.value, merged);
        return Stored(merged);
      }
      DeleteRefinesMap(cfg, collections, ddo.id);
      var _ := Delete(ddo.id);
      r := Create(ddo);
    }

    /** `create`. It is the one operation that can break the invariant, so its contract
        is about the collections; CreateKeepsSoundnessIff says when it is safe. */
    method Create(ddo: Ddo) returns (r: Outcome)
      requires HasCollections(cfg, collections)
      modifies this
      ensures (collections, r) == Created(cfg, old(collections), ddo)
    {
      var schema := GetDdoSchema(cfg, ddo);
      if schema.None? {
        return NoSchema;
      }
      if !Validated(cfg, ddo) || (cfg.engine.Typesense? && ddo.id in collections[schema.value]) {
        return Rejected;
      }
      collections := Put(collections, schema.value, ddo);
      r := Stored(ddo);
    }

    /** `retrieve`: try each schema in turn. */
    method Retrieve(did: string) returns (r: Option<Ddo>)
      requires Valid()
      ensures r == Lookup(Docs(), did)
    {
      r := None;
      var i := 0;
      while i < |cfg.schemas|
        invariant 0 <= i <= |cfg.schemas|
        invariant r == None
        invariant Holder(cfg.schemas, collections, did) == Holder(cfg.schemas[i..], collections, did)
      {
        var s := cfg.schemas[i];
        if did in collections[s] {
          r := Some(collections[s][did]);
          break;
        }
        i := i + 1;
      }
      LookupContents(cfg, collections, did);
    }

    /** `delete`: the first collection that has the document loses it. */
    method Delete(did: string) returns (deleted: bool)
      requires Valid()
      modifies this
      ensures Valid()
      ensures collections == Deleted(cfg, old(collections), did)
      ensures Docs() == old(Docs()) - {did}
      ensures deleted <==> did in old(Docs())
    {
      DeleteRefinesMap(cfg, collections, did);
      LookupContents(cfg, collections, did);
      var i := 0;
      while i < |cfg.schemas|
        invariant 0 <= i <= |cfg.schemas|
        invariant collections == old(collections)
        invariant Holder(cfg.schemas, collections, did) == Holder(cfg.schemas[i..], collections, did)
      {
        var s := cfg.schemas[i];
        if did in collections[s] {
          collections := Removed(collections, s, did);
          return true;
        }
        i := i + 1;
      }
      return false;
    }

    /** `deleteAllAssetsFromChain`. */
    method DeleteAllAssetsFromChain(chainId: int) returns (numDeleted: nat)
      requires Valid()
      modifies this
      ensures Valid()
      ensures Docs() == old(Docs()) - OfChain(old(Docs()), chainId)
      ensures numDeleted == |OfChain(old(Docs()), chainId)|
    {
      ClearChainRefinesMap(cfg, collections, chainId);
      numDeleted := 0;
      var i := 0;
      while i < |cfg.schemas|
        invariant 0 <= i <= |cfg.schemas|
        invariant HasCollections(cfg, collections)
        invariant var (all, n) := ChainCleared(cfg.schemas, old(collections), chainId);
                  var (rest, m) := ChainCleared(cfg.schemas[i..], collections, chainId);
                  rest == all && numDeleted + m == n
      {
        var s := cfg.schemas[i];
        var gone := OfChain(collections[s], chainId);
        collections := collections[s := collections[s] - gone];
        numDeleted := numDeleted + |gone|;
        i := i + 1;
      }
    }
  }
}
