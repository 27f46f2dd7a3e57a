/** The records the bot reads from and writes to the ledger's topics. */
module Events {

  /** A JSON field that may be absent or null (both read as None). */
  datatype Option<+T> = None | Some(value: T)

  /**
   * One decoded topic message: the object that JSON.parse yields for it.
   * The logs are loosely typed, so every field may be missing; the four
   * record kinds ("electionCreated", "electionEnded", "candidateAdded",
   * "voted") share this one shape and differ only in which fields they fill.
   */
  datatype Event = Event(
    kind: Option<string>,           // the "type" discriminant
    electionId: Option<string>,
    electionName: Option<string>,
    winnerName: Option<string>,
    candidateId: Option<string>,
    candidateName: Option<string>,
    voterId: Option<string>,
    email: Option<string>,
    origin: Option<string>,
    timestamp: Option<int>,
    txnHash: Option<string>,
    contractId: Option<string>)

  /** A record with nothing but an election id, the shape of a minimal created or ended record. */
  function WithId(id: string): (e: Event)
    ensures e.electionId == Some(id)
  {
    Event(None, Some(id), None, None, None, None, None, None, None, None, None, None)
  }
}
