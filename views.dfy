/**
 * The derived views over the three logs: ongoing elections, candidate
 * rosters and the detail page of one election. The logs are snapshots
 * already fetched and decoded, in the order the log service returns them.
 */
module ElectionViews {
  import opened Events
  import opened Sequences
  import opened Display

  /** Some ended record carries the id `id`. */
  ghost predicate HasEndedRecord(ended: seq<Event>, id: Option<string>)
  {
    exists e :: e in ended && e.electionId == id
  }

  /** `new Set(endedElections.map(e => e.electionId))`. */
  function EndedIds(ended: seq<Event>): (ids: set<Option<string>>)
    ensures forall id :: id in ids <==> HasEndedRecord(ended, id)
  {
    set e | e in ended :: e.electionId
  }

  function NotEndedIn(ids: set<Option<string>>): Event -> bool
  {
    (e: Event) => e.electionId !in ids
  }

  function EndedIn(ids: set<Option<string>>): Event -> bool
  {
    (e: Event) => e.electionId in ids
  }

  /**
   * getOngoingElections: the created records whose id is not among the
   * ended ids, in created-log order.
   */
  function OngoingElections(created: seq<Event>, ended: seq<Event>): (r: seq<Event>)
    ensures forall e :: e in r <==> e in created && !HasEndedRecord(ended, e.electionId)
    ensures IsSubsequence(r, created)
    ensures created == [] ==> r == []
  {
    var ids := EndedIds(ended);
    FilterMembers(created, NotEndedIn(ids));
    FilterIsSubsequence(created, NotEndedIn(ids));
    Filter(created, NotEndedIn(ids))
  }

  /** The created records that do have an ended record: the complement of the ongoing ones. */
  ghost function EndedElections(created: seq<Event>, ended: seq<Event>): seq<Event>
  {
    Filter(created, EndedIn(EndedIds(ended)))
  }

  /**
   * Ongoing elections are exactly the created records without an ended
   * record, each as often as it was created.
   */
  lemma OngoingCounts(created: seq<Event>, ended: seq<Event>, e: Event)
    ensures multiset(OngoingElections(created, ended))[e] ==
      if HasEndedRecord(ended, e.electionId) then 0 else multiset(created)[e]
  {
    FilterCounts(created, NotEndedIn(EndedIds(ended)), e);
  }

  /**
   * Every created election is ongoing or has an ended record, never both
   * and never neither: the two views split the created log.
   */
  lemma OngoingPartition(created: seq<Event>, ended: seq<Event>)
    ensures forall e :: e in created ==>
      (e in OngoingElections(created, ended) <==> !(e in EndedElections(created, ended)))
    ensures multiset(OngoingElections(created, ended)) + multiset(EndedElections(created, ended)) == multiset(created)
    ensures |OngoingElections(created, ended)| + |EndedElections(created, ended)| == |created|
  {
    var ids := EndedIds(ended);
    FilterMembers(created, EndedIn(ids));
    FilterPartition(created, NotEndedIn(ids), EndedIn(ids));
  }

  function ForElection(id: string): Event -> bool
  {
    (e: Event) => e.electionId == Some(id)
  }

  /**
   * getCandidates: the candidate-added records whose election id is exactly
   * `id`, in log order; empty exactly when no record has that id.
   */
  function Candidates(id: string, candidateLog: seq<Event>): (r: seq<Event>)
    ensures forall c :: c in r <==> c in candidateLog && c.electionId == Some(id)
    ensures IsSubsequence(r, candidateLog)
    ensures r == [] <==> forall c :: c in candidateLog ==> c.electionId != Some(id)
  {
    FilterMembers(candidateLog, ForElection(id));
    FilterIsSubsequence(candidateLog, ForElection(id));
    Filter(candidateLog, ForElection(id))
  }

  /** Each matching record appears in the roster as often as in the log. */
  lemma CandidatesCounts(id: string, candidateLog: seq<Event>, c: Event)
    ensures multiset(Candidates(id, candidateLog))[c] ==
      if c.electionId == Some(id) then multiset(candidateLog)[c] else 0
  {
    FilterCounts(candidateLog, ForElection(id), c);
  }

  /**
   * A record appended to the candidate log joins the roster of its own
   * election at the end, and no other roster.
   */
  lemma CandidatesAppend(id: string, candidateLog: seq<Event>, c: Event)
    ensures Candidates(id, candidateLog + [c]) ==
      Candidates(id, candidateLog) + (if c.electionId == Some(id) then [c] else [])
  {
    FilterConcat(candidateLog, [c], ForElection(id));
    assert Filter([c], ForElection(id)) == (if c.electionId == Some(id) then [c] else []);
  }

  /** `elections.find(e => e.electionId === id)`: the first record with that id. */
  function FindElection(elections: seq<Event>, id: string): (r: Option<Event>)
    ensures r.None? <==> forall e :: e in elections ==> e.electionId != Some(id)
    ensures r.Some? ==>
      exists i ::
        && 0 <= i < |elections| && elections[i] == r.value && elections[i].electionId == Some(id)
        && forall j :: 0 <= j < i ==> elections[j].electionId != Some(id)
  {
    if elections == [] then None
    else if elections[0].electionId == Some(id) then Some(elections[0])
    else FindElection(elections[1..], id)
  }

  /** `endedElectionIds.includes(id)`. */
  function IsEnded(ended: seq<Event>, id: string): (b: bool)
    ensures b <==> HasEndedRecord(ended, Some(id))
  {
    var endedIds := seq(|ended|, i requires 0 <= i < |ended| => ended[i].electionId);
    assert forall i :: 0 <= i < |ended| ==> endedIds[i] == ended[i].electionId;
    Some(id) in endedIds
  }

  /** What the detail reply shows after "Winner:". */
  datatype Winner = StillOngoing | Announced(winnerName: Option<string>)

  /** The fields of the detail reply. */
  datatype Detail = Detail(
    electionId: Option<string>,
    electionName: Option<string>,
    candidateNames: seq<string>,
    timestamp: Option<int>,
    ended: bool,
    winner: Winner)

  /**
   * The outcome of the detail lookup: the detail block, the "not found"
   * reply, or the exception a candidate record without a name raises.
   */
  datatype DetailLookup = Found(detail: Detail) | NotFound(electionId: string) | NameMissing

  /**
   * The view-election-details branch as written: the election is the first
   * created record with the id, ended-ness is membership in the ended ids,
   * and the timestamp and the winner are read from the created record.
   * The candidate names are computed before the record is tested, so a
   * nameless candidate of that election fails the lookup whatever else holds.
   */
  function ElectionDetailAsWritten(id: string, created: seq<Event>, ended: seq<Event>, candidateLog: seq<Event>): (r: DetailLookup)
    ensures r.NameMissing? <==> exists c :: c in candidateLog && c.electionId == Some(id) && c.candidateName.None?
    ensures r.NotFound? <==> !r.NameMissing? && forall e :: e in created ==> e.electionId != Some(id)
    ensures r.NotFound? ==> r.electionId == id
    ensures r.Found? ==>
      exists i ::
        && 0 <= i < |created| && created[i].electionId == Some(id)
        && (forall j :: 0 <= j < i ==> created[j].electionId != Some(id))
        && r.detail == Detail(Some(id), created[i].electionName, r.detail.candidateNames, created[i].timestamp,
             HasEndedRecord(ended, Some(id)),
             if HasEndedRecord(ended, Some(id)) then Announced(created[i].winnerName) else StillOngoing)
    ensures r.Found? ==> var roster := Candidates(id, candidateLog);
      |r.detail.candidateNames| == |roster| && forall k :: 0 <= k < |roster| ==>
        roster[k].candidateName.Some? && r.detail.candidateNames[k] == StripQuotes(roster[k].candidateName.value)
  {
    var election := FindElection(created, id);
    var isEnded := IsEnded(ended, id);
    var names := CandidateNames(Candidates(id, candidateLog));
    CandidateNamesSpec(Candidates(id, candidateLog));
    if names.None? then NameMissing
    else if election.None? then NotFound(id)
    else
      var e := election.value;
      Found(Detail(e.electionId, e.electionName, names.value, e.timestamp, isEnded,
        if isEnded then Announced(e.winnerName) else StillOngoing))
  }

  /**
   * The detail lookup as the reply's labels mean it ("Winner announced at",
   * "Winner:"): once the election has ended, the timestamp and the winner
   * come from its first ended record.
   */
  function ElectionDetail(id: string, created: seq<Event>, ended: seq<Event>, candidateLog: seq<Event>): (r: DetailLookup)
    ensures r.NameMissing? <==> exists c :: c in candidateLog && c.electionId == Some(id) && c.candidateName.None?
    ensures r.NotFound? <==> !r.NameMissing? && forall e :: e in created ==> e.electionId != Some(id)
    ensures r.Found? ==> (r.detail.ended <==> HasEndedRecord(ended, Some(id)))
    ensures r.Found? && r.detail.ended ==>
      exists i ::
        && 0 <= i < |ended| && ended[i].electionId == Some(id)
        && (forall j :: 0 <= j < i ==> ended[j].electionId != Some(id))
        && r.detail.winner == Announced(ended[i].winnerName) && r.detail.timestamp == ended[i].timestamp
    ensures r.Found? && !r.detail.ended ==> r.detail.winner == StillOngoing
    ensures r.NotFound? ==> r.electionId == id
    ensures r.Found? ==>
      && ElectionDetailAsWritten(id, created, ended, candidateLog).Found?
      && r.detail == ElectionDetailAsWritten(id, created, ended, candidateLog).detail.(timestamp := r.detail.timestamp, winner := r.detail.winner)
    ensures r.Found? && !r.detail.ended ==> r.detail.timestamp == ElectionDetailAsWritten(id, created, ended, candidateLog).detail.timestamp
  {
    match ElectionDetailAsWritten(id, created, ended, candidateLog)
    case Found(d) =>
      if d.ended then
        var last := FindElection(ended, id).value;
        Found(d.(timestamp := last.timestamp, winner := Announced(last.winnerName)))
      else Found(d)
    case other => other
  }

  /**
   * The input that tells the two apart: an election created without a
   * winner and ended with winner "Alice" shows no winner as written.
   */
  lemma WinnerReadFromCreatedRecord()
    ensures var created, ended := [WithId("E1")], [WithId("E1").(winnerName := Some("Alice"))];
      && ElectionDetailAsWritten("E1", created, ended, []).Found?
      && ElectionDetailAsWritten("E1", created, ended, []).detail.winner == Announced(None)
      && ElectionDetail("E1", created, ended, []).detail.winner == Announced(Some("Alice"))
  {
    var created, ended := [WithId("E1")], [WithId("E1").(winnerName := Some("Alice"))];
    assert created[0] in created && ended[0] in ended;
  }
}
