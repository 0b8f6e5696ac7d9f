/** DDO documents and the patch that a document database applies to a stored one.

    Only the fields the program reads are fields of their own. Everything else a
    document holds is `content`, from the path of a leaf to its value, so that the
    patch of a nested object is the union of its leaves. */
module Documents {
  import opened Options

  /** NFT states (src/utils/constants.ts). */
  const ACTIVE := 0
  const DEPRECATED := 2
  const REVOKED := 3

  datatype Nft = Nft(state: int, details: map<string, string>)

  datatype Service = Service(id: string, datatokenAddress: string)

  datatype EventInfo =
    EventInfo(tx: string, from: string, contract: string, block: int, datetime: Option<string>)

  datatype Ddo = Ddo(
    id: string,
    chainId: int,
    nftAddress: string,
    version: Option<string>,
    nft: Option<Nft>,
    event: Option<EventInfo>,
    services: Option<seq<Service>>,
    stats: Option<int>,
    content: map<string, string>)

  predicate IsActive(ddo: Ddo) {
    ddo.nft.Some? && ddo.nft.value.state == ACTIVE
  }

  function Newer<T>(stored: Option<T>, patch: Option<T>): Option<T> {
    if patch.Some? then patch else stored
  }

  function PatchNft(stored: Option<Nft>, patch: Option<Nft>): Option<Nft> {
    if stored.None? || patch.None? then Newer(stored, patch)
    else Some(Nft(patch.value.state, stored.value.details + patch.value.details))
  }

  function PatchEvent(stored: Option<EventInfo>, patch: Option<EventInfo>): Option<EventInfo> {
    if stored.None? || patch.None? then Newer(stored, patch)
    else Some(patch.value.(datetime := Newer(stored.value.datetime, patch.value.datetime)))
  }

  /** A stored document after a PATCH with `patch`: what `patch` names is replaced,
      objects are merged, and what `patch` does not name stays. */
  function Patch(stored: Ddo, patch: Ddo): Ddo {
    Ddo(
      patch.id,
      patch.chainId,
      patch.nftAddress,
      Newer(stored.version, patch.version),
      PatchNft(stored.nft, patch.nft),
      PatchEvent(stored.event, patch.event),
      Newer(stored.services, patch.services),
      Newer(stored.stats, patch.stats),
      stored.content + patch.content)
  }

  function PatchAll(ddo: Ddo, patches: seq<Ddo>): Ddo
    decreases |patches|
  {
    if patches == [] then ddo else PatchAll(Patch(ddo, patches[0]), patches[1..])
  }

  lemma PatchIsIdempotent(a: Ddo, b: Ddo)
    ensures Patch(Patch(a, b), b) == Patch(a, b)
    ensures Patch(b, b) == b
  {
    assert a.content + b.content + b.content == a.content + b.content;
    assert b.content + b.content == b.content;
    if b.nft.Some? {
      assert b.nft.value.details + b.nft.value.details == b.nft.value.details;
      if a.nft.Some? {
        assert a.nft.value.details + b.nft.value.details + b.nft.value.details
            == a.nft.value.details + b.nft.value.details;
      }
    }
  }

  lemma PatchIsAssociative(a: Ddo, b: Ddo, c: Ddo)
    ensures Patch(Patch(a, b), c) == Patch(a, Patch(b, c))
  {
    assert a.content + b.content + c.content == a.content + (b.content + c.content);
    if a.nft.Some? && b.nft.Some? && c.nft.Some? {
      assert a.nft.value.details + b.nft.value.details + c.nft.value.details
          == a.nft.value.details + (b.nft.value.details + c.nft.value.details);
    }
  }

  /** Several patches in a row are one patch. */
  lemma {:induction false} PatchAllIsOnePatch(ddo: Ddo, first: Ddo, rest: seq<Ddo>)
    ensures PatchAll(Patch(ddo, first), rest) == Patch(ddo, PatchAll(first, rest))
    decreases |rest|
  {
    if rest == [] {
    } else {
      PatchIsAssociative(ddo, first, rest[0]);
      PatchAllIsOnePatch(ddo, Patch(first, rest[0]), rest[1..]);
    }
  }

  /** Sending the same patches a second time changes nothing. */
  lemma PatchAllTwice(ddo: Ddo, first: Ddo, rest: seq<Ddo>)
    ensures var once := PatchAll(Patch(ddo, first), rest);
            PatchAll(Patch(once, first), rest) == once
    ensures var once := PatchAll(first, rest);
            PatchAll(Patch(once, first), rest) == once
  {
    var all := PatchAll(first, rest);
    PatchAllIsOnePatch(ddo, first, rest);
    PatchAllIsOnePatch(Patch(ddo, all), first, rest);
    PatchAllIsOnePatch(all, first, rest);
    PatchIsIdempotent(ddo, all);
  }
}
