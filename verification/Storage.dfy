/**
 What the two settlement repositories share: the serialised form of archives and responses, the key of a settlement and
 the ways a settlement can fail.
 */
module Storage {
  import opened Common
  import opened Settlement

  type Blob = seq<byte>

  /** proto.Marshal and proto.Unmarshal for the two stored messages; None is an error return. */
  datatype Marshaller = Marshaller(
    putArchive: Archive -> Option<Blob>,
    getArchive: Blob -> Option<Archive>,
    putResponse: Response -> Option<Blob>,
    getResponse: Blob -> Option<Response>)

  /** All that is assumed of protobuf: what could be marshalled unmarshals to itself. */
  ghost predicate Lawful(m: Marshaller) {
    && (forall a: Archive :: m.putArchive(a).Some? ==> m.getArchive(m.putArchive(a).value) == Some(a))
    && (forall r: Response :: m.putResponse(r).Some? ==> m.getResponse(m.putResponse(r).value) == Some(r))
  }

  /** The unique key of combat_settlements, and the in-memory store's memorySettlementKey. */
  datatype Key = Key(player: int64, runId: string)

  function KeyOf(player: int64, req: Request): Key {
    Key(player, req.runId)
  }

  datatype Failure = PlayerNotFound
                   | MalformedArchive
                   | MalformedResponse
                   | Overflow(error: SettleError)
                   | StatsTotalsOverflow
                   | InvalidMetadata
                   | EncodeFailed
                   | DatabaseError

  /** A fresh settlement of one run against the archive stored for the player, if any. */
  function SettleStored(m: Marshaller, policy: Policy, stored: Option<Blob>, req: Request)
    : (result: Result<Response, Failure>)
    ensures result.Ok? ==> result.value.archive.Some? && !result.value.duplicate && result.value.runId == req.runId
  {
    var archive := if stored.None? then Some(FRESH_ARCHIVE) else m.getArchive(stored.value);
    if archive.None? then Err(MalformedArchive)
    else match Settled(archive.value, req, policy)
      case Err(error) => Err(Overflow(error))
      case Ok(response) => Ok(response)
  }

  /** The answer to a request whose key already has a stored response. */
  function ReplayStored(m: Marshaller, stored: Blob, req: Request): Result<Response, Failure> {
    match m.getResponse(stored)
    case None => Err(MalformedResponse)
    case Some(response) => Ok(Replayed(response, req))
  }

  function Lookup<K, V>(table: map<K, V>, key: K): Option<V> {
    if key in table then Some(table[key]) else None
  }
}
