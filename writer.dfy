/**
 * The records the two write commands hand to the ledger-append call, and
 * how they read back. The append itself is not part of this model.
 */
module EventWriter {
  import opened Events
  import opened Display
  import opened ElectionViews

  /**
   * `new Date().getSeconds()` for a clock reading of `epochSeconds` seconds
   * (local time): the seconds within the current minute.
   */
  function Seconds(epochSeconds: nat): (s: nat)
    ensures s < 60
    ensures (epochSeconds - s) % 60 == 0
  {
    epochSeconds % 60
  }

  /** Seconds-of-minute timestamps wrap: a write one second later can carry a smaller timestamp. */
  lemma SecondsWrap(epochSeconds: nat)
    requires Seconds(epochSeconds) == 59
    ensures Seconds(epochSeconds + 1) == 0
  {
  }

  /** The record cast-vote submits to the voted topic. */
  function VotedRecord(electionId: string, candidateId: string, userId: string, email: string, epochSeconds: nat): (e: Event)
    ensures e.kind == Some("voted") && e.origin == Some("discord")
    ensures e.txnHash.None? && e.contractId.None?
    ensures e.electionId == Some(electionId) && e.candidateId == Some(candidateId)
    ensures e.voterId == Some(userId) && e.email == Some(email)
    ensures e.timestamp == Some(Seconds(epochSeconds)) && 0 <= e.timestamp.value < 60
    ensures e.electionName.None? && e.winnerName.None? && e.candidateName.None?
  {
    Event(
      kind := Some("voted"),
      electionId := Some(electionId),
      electionName := None,
      winnerName := None,
      candidateId := Some(candidateId),
      candidateName := None,
      voterId := Some(userId),
      email := Some(email),
      origin := Some("discord"),
      timestamp := Some(Seconds(epochSeconds)),
      txnHash := None,
      contractId := None)
  }

  /** The record register-candidate submits to the candidate-added topic; the candidate is the invoking user. */
  function CandidateAddedRecord(electionId: string, userId: string, candidateName: string, email: string, epochSeconds: nat): (e: Event)
    ensures e.kind == Some("candidateAdded") && e.origin == Some("discord")
    ensures e.txnHash.None? && e.contractId.None?
    ensures e.electionId == Some(electionId) && e.candidateId == Some(userId)
    ensures e.candidateName == Some(candidateName) && e.email == Some(email)
    ensures e.timestamp == Some(Seconds(epochSeconds)) && 0 <= e.timestamp.value < 60
    ensures e.electionName.None? && e.winnerName.None? && e.voterId.None?
  {
    Event(
      kind := Some("candidateAdded"),
      electionId := Some(electionId),
      electionName := None,
      winnerName := None,
      candidateId := Some(userId),
      candidateName := Some(candidateName),
      voterId := None,
      email := Some(email),
      origin := Some("discord"),
      timestamp := Some(Seconds(epochSeconds)),
      txnHash := None,
      contractId := None)
  }

  /** The fields of a vote as the voted topic's schema has them. */
  datatype Vote = Vote(electionId: string, candidateId: string, voterId: string, email: string)

  /**
   * A vote read back from a record: only a "voted" record with all four
   * fields is one. The bot never reads the voted topic; this reader has no
   * counterpart in the handler and exists as the partner of `VotedRecord`
   * for the round trip below.
   */
  function ReadVote(e: Event): (v: Option<Vote>)
    ensures v.Some? <==> e.kind == Some("voted") && e.electionId.Some? && e.candidateId.Some? && e.voterId.Some? && e.email.Some?
    ensures v.Some? ==> Some(v.value.electionId) == e.electionId && Some(v.value.voterId) == e.voterId
    ensures v.Some? ==> Some(v.value.candidateId) == e.candidateId && Some(v.value.email) == e.email
  {
    if e.kind == Some("voted") && e.electionId.Some? && e.candidateId.Some? && e.voterId.Some? && e.email.Some? then
      Some(Vote(e.electionId.value, e.candidateId.value, e.voterId.value, e.email.value))
    else None
  }

  /** Every field cast-vote writes reads back unchanged, whatever the clock said. */
  lemma VoteRoundTrip(electionId: string, candidateId: string, userId: string, email: string, epochSeconds: nat)
    ensures ReadVote(VotedRecord(electionId, candidateId, userId, email, epochSeconds)) == Some(Vote(electionId, candidateId, userId, email))
  {
  }

  /**
   * Once a candidate-added record is in the log, its election's roster ends
   * with it and lists its name with the quotes stripped; every other
   * election's roster is unchanged.
   */
  lemma RegisteredCandidateListed(log: seq<Event>, electionId: string, userId: string, name: string, email: string, epochSeconds: nat, other: string)
    requires other != electionId
    ensures var record := CandidateAddedRecord(electionId, userId, name, email, epochSeconds);
      && Candidates(electionId, log + [record]) == Candidates(electionId, log) + [record]
      && Candidates(other, log + [record]) == Candidates(other, log)
      && (CandidateNames(Candidates(electionId, log)).Some? ==>
            CandidateNames(Candidates(electionId, log + [record])) ==
              Some(CandidateNames(Candidates(electionId, log)).value + [StripQuotes(name)]))
  {
    var record := CandidateAddedRecord(electionId, userId, name, email, epochSeconds);
    CandidatesAppend(electionId, log, record);
    CandidatesAppend(other, log, record);
    if CandidateNames(Candidates(electionId, log)).Some? {
      assert CandidateNames([record]) == Some([StripQuotes(name)]) by {
        assert [record][0] == record && [record][1..] == [];
        assert CandidateNames([]) == Some([]);
        assert [StripQuotes(name)] + [] == [StripQuotes(name)];
      }
      CandidateNamesConcat(Candidates(electionId, log), [record]);
    }
  }
}
