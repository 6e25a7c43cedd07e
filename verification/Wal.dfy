/** The logical replication stream as the event streamer sees it: decoded pgoutput messages
    and the calls the transaction tracker makes on the replication resolver. */
module Wal {
  /** What a relation announced by the server is to the streamer. */
  datatype RelationKind = HypertableCatalog | ChunkCatalog | UserTable

  datatype Message =
    | Relation(rel: nat, kind: RelationKind)
    | Begin
    | Commit
    | Insert(rel: nat)
    | Update(rel: nat, chunkId: int, status: int)
    | Delete(rel: nat)
    | Truncate
    | Logical(transactional: bool, prefix: string)

  /** A message together with its position in the stream; the position stands for the xld. */
  datatype Entry = Entry(pos: nat, msg: Message)

  /** A message as it arrives, with what the tracker reads from its environment while handling it:
      whether the transaction deadline has passed, and the status of the chunks in the catalog. */
  datatype Event = Event(msg: Message, late: bool, catalog: map<int, int>)

  /** A call on the resolver, in the order in which the tracker makes them. */
  datatype Call =
    | OnRelation(entry: Entry)
    | OnBegin(entry: Entry)
    | OnCommit(entry: Entry)
    | OnRecord(entry: Entry)
    | OnChunkCompression(chunkId: int)
    | OnChunkDecompression(chunkId: int)
    | OnChunkUpdate(entry: Entry)

  const DECOMPRESSION_MARKER_START := "::timescaledb-decompression-start"
  const DECOMPRESSION_MARKER_END := "::timescaledb-decompression-end"

  /** Messages that belong to a transaction; only non-transactional logical messages do not. */
  predicate Transactional(msg: Message) {
    msg.Logical? ==> msg.transactional
  }

  /** The stream position of the message a call hands on. */
  function PosOf(call: Call): int {
    if call.OnChunkCompression? || call.OnChunkDecompression? then -1 else call.entry.pos
  }
}
