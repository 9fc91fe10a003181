/** How the directory canister collects one child's filtered groups
    (src/canister/src/logic/store.rs): a chunk request per call, failures
    mapped to an empty reply, the chunks concatenated and then decoded.

    The remote `get_groups_for_parent` query is the parameter `call`,
    answering a canister, a chunk number and a chunk size with a reply, or
    `None` when the call fails. `decode` is the Candid deserialiser. */
module Aggregator {
  import opened Wrappers
  import opened GroupModel
  import opened GroupQuery

  /** The chunk size used when the caller gives none. */
  const DefaultChunkSize: nat := 2000000

  type ChunkCall = (Principal, nat, nat) -> Option<ChunkReply>
  type Decoder = seq<byte> -> Option<seq<GroupResponse>>

  /** `get_child_data_call`: a failed call reads as no bytes and `(0, 0)`. */
  function CallOrEmpty(call: ChunkCall, canister: Principal, chunk: nat, max: Option<nat>): (r: ChunkReply)
    ensures var size := if max.Some? then max.value else DefaultChunkSize;
      && (call(canister, chunk, size).None? ==> r == ChunkReply([], 0, 0))
      && (call(canister, chunk, size).Some? ==> r == call(canister, chunk, size).value)
  {
    var size := if max.Some? then max.value else DefaultChunkSize;
    match call(canister, chunk, size)
    case None => ChunkReply([], 0, 0)
    case Some(reply) => reply
  }

  /** The bytes of chunks `from .. to - 1`, fetched one call each. */
  function FetchRange(call: ChunkCall, canister: Principal, from: nat, to: nat): seq<byte>
    decreases if to > from then to - from else 0
  {
    if from >= to then []
    else CallOrEmpty(call, canister, from, None).bytes + FetchRange(call, canister, from + 1, to)
  }

  lemma {:induction false} FetchRangeSnoc(call: ChunkCall, canister: Principal, from: nat, to: nat)
    requires from <= to
    ensures FetchRange(call, canister, from, to + 1)
         == FetchRange(call, canister, from, to) + CallOrEmpty(call, canister, to, None).bytes
    decreases if to > from then to - from else 0
  {
    if from < to {
      FetchRangeSnoc(call, canister, from + 1, to);
    }
  }

  /** The bytes gathered from one child as `get_filtered_child_data` is
      written: chunk 0, then chunks `1 ..= last` only when `last > 1`. */
  function GatheredAsWritten(call: ChunkCall, canister: Principal): seq<byte> {
    var first := CallOrEmpty(call, canister, 0, None);
    if first.last > 1 then first.bytes + FetchRange(call, canister, 1, first.last + 1)
    else first.bytes
  }

  /** The bytes gathered with the guard corrected to `last >= 1`: chunk 0
      and then every chunk up to the reported `last`. */
  function Gathered(call: ChunkCall, canister: Principal): seq<byte> {
    var first := CallOrEmpty(call, canister, 0, None);
    if first.last >= 1 then first.bytes + FetchRange(call, canister, 1, first.last + 1)
    else first.bytes
  }

  /** A child that answers every chunk request from one serialised payload,
      as its `get_chunked_data` does. */
  ghost predicate Serves(call: ChunkCall, canister: Principal, payload: seq<byte>) {
    forall chunk: nat, max: nat :: call(canister, chunk, max) == ChunkWindow(payload, chunk, max)
  }

  lemma {:induction false} FetchRangeServed(call: ChunkCall, canister: Principal, payload: seq<byte>, from: nat, to: nat)
    requires Serves(call, canister, payload)
    ensures FetchRange(call, canister, from, to) == Chunks(payload, DefaultChunkSize, from, to)
    decreases if to > from then to - from else 0
  {
    if from < to {
      FetchRangeServed(call, canister, payload, from + 1, to);
    }
  }

  /** With the corrected guard, the gathered bytes are exactly what the
      child serialised, whatever its length. */
  lemma GatheredRoundTrip(call: ChunkCall, canister: Principal, payload: seq<byte>)
    requires Serves(call, canister, payload)
    ensures Gathered(call, canister) == payload
  {
    var m := DefaultChunkSize;
    var first := CallOrEmpty(call, canister, 0, None);
    assert first == ChunkWindow(payload, 0, m).value;
    if |payload| >= m {
      ChunkRoundTrip(payload, m);
      FetchRangeServed(call, canister, payload, 1, first.last + 1);
      assert Chunks(payload, m, 0, first.last + 1) == first.bytes + Chunks(payload, m, 1, first.last + 1);
    }
  }

  /** As written, a payload longer than one chunk but shorter than two
      reports `last == 1`, and its second chunk is never fetched. */
  lemma AsWrittenDropsSecondChunk(call: ChunkCall, canister: Principal, payload: seq<byte>)
    requires Serves(call, canister, payload)
    requires DefaultChunkSize < |payload| < 2 * DefaultChunkSize
    ensures GatheredAsWritten(call, canister) == payload[..DefaultChunkSize]
    ensures GatheredAsWritten(call, canister) != payload
  {
    var m := DefaultChunkSize;
    assert |payload| / m == 1;
    var first := CallOrEmpty(call, canister, 0, None);
    assert first == ChunkWindow(payload, 0, m).value;
  }

  /** A concrete instance: three million zero bytes come back as two
      million. */
  lemma AsWrittenCounterexample()
    ensures var payload := seq(3000000, i => 0 as byte);
      var call: ChunkCall := (c: Principal, chunk: nat, max: nat) => ChunkWindow(payload, chunk, max);
      |GatheredAsWritten(call, []) | == 2000000 && |payload| == 3000000
  {
    var payload := seq(3000000, i => 0 as byte);
    var call: ChunkCall := (c: Principal, chunk: nat, max: nat) => ChunkWindow(payload, chunk, max);
    AsWrittenDropsSecondChunk(call, [], payload);
  }

  /** One child's groups: the gathered bytes decoded, or nothing when they
      do not decode. */
  function ChildGroups(call: ChunkCall, decode: Decoder, canister: Principal): (r: seq<GroupResponse>)
    ensures decode(Gathered(call, canister)).None? ==> r == []
  {
    match decode(Gathered(call, canister))
    case None => []
    case Some(groups) => groups
  }

  /** One child's groups as `get_filtered_child_data` is written: the bytes
      gathered under the `last > 1` guard, decoded, or nothing. */
  function ChildGroupsAsWritten(call: ChunkCall, decode: Decoder, canister: Principal): (r: seq<GroupResponse>)
    ensures decode(GatheredAsWritten(call, canister)).None? ==> r == []
  {
    match decode(GatheredAsWritten(call, canister))
    case None => []
    case Some(groups) => groups
  }

  /** Outside the band of payloads longer than one chunk and shorter than
      two, the guard as written loses nothing: the gathered bytes are the
      whole payload. */
  lemma AsWrittenOutsideBand(call: ChunkCall, canister: Principal, payload: seq<byte>)
    requires Serves(call, canister, payload)
    requires |payload| <= DefaultChunkSize || |payload| >= 2 * DefaultChunkSize
    ensures GatheredAsWritten(call, canister) == payload
  {
    var m := DefaultChunkSize;
    var first := CallOrEmpty(call, canister, 0, None);
    assert first == ChunkWindow(payload, 0, m).value;
    if |payload| >= 2 * m {
      assert |payload| / m >= 2;
    }
    assert first.last != 1;
    GatheredRoundTrip(call, canister, payload);
  }

  /** A child that serves the encoding of its groups, of a length outside
      that band, hands back exactly those groups even as written. */
  lemma ChildGroupsAsWrittenRoundTrip(call: ChunkCall, decode: Decoder, canister: Principal,
                                      payload: seq<byte>, groups: seq<GroupResponse>)
    requires Serves(call, canister, payload) && decode(payload) == Some(groups)
    requires |payload| <= DefaultChunkSize || |payload| >= 2 * DefaultChunkSize
    ensures ChildGroupsAsWritten(call, decode, canister) == groups
  {
    AsWrittenOutsideBand(call, canister, payload);
  }

  /** A child that serves the encoding of its groups hands back exactly
      those groups. */
  lemma ChildGroupsRoundTrip(call: ChunkCall, decode: Decoder, canister: Principal,
                             payload: seq<byte>, groups: seq<GroupResponse>)
    requires Serves(call, canister, payload) && decode(payload) == Some(groups)
    ensures ChildGroups(call, decode, canister) == groups
  {
    GatheredRoundTrip(call, canister, payload);
  }

  /** `get_filtered_child_data` as written: chunk 0, then the remaining
      chunks only when chunk 0 reports `last > 1`; bytes that do not decode
      give no groups. */
  method GetFilteredChildData(call: ChunkCall, decode: Decoder, canister: Principal)
    returns (groups: seq<GroupResponse>)
    ensures groups == ChildGroupsAsWritten(call, decode, canister)
  {
    var first := CallOrEmpty(call, canister, 0, None);
    var bytes := first.bytes;
    if first.last > 1 {
      for i := 1 to first.last + 1
        invariant bytes == first.bytes + FetchRange(call, canister, 1, i)
      {
        var reply := CallOrEmpty(call, canister, i, None);
        FetchRangeSnoc(call, canister, 1, i);
        bytes := bytes + reply.bytes;
      }
    }
    match decode(bytes)
    case None => groups := [];
    case Some(gs) => groups := gs;
  }

  /** The groups of several children, concatenated in the given order. */
  function Collected(call: ChunkCall, decode: Decoder, canisters: seq<Principal>): seq<GroupResponse> {
    if canisters == [] then []
    else Collected(call, decode, canisters[..|canisters| - 1]) + ChildGroupsAsWritten(call, decode, canisters[|canisters| - 1])
  }

  /** Every child's groups appear in the collection. */
  lemma {:induction false} CollectedContains(call: ChunkCall, decode: Decoder, canisters: seq<Principal>, i: nat)
    requires i < |canisters|
    ensures forall g :: g in ChildGroupsAsWritten(call, decode, canisters[i]) ==> g in Collected(call, decode, canisters)
  {
    var init := canisters[..|canisters| - 1];
    if i < |canisters| - 1 {
      CollectedContains(call, decode, init, i);
      assert init[i] == canisters[i];
    }
  }
}
