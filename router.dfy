/**
 * The interactionCreate handler: maps a slash-command invocation to the
 * reply it sends and the record it submits, over a snapshot of the logs.
 */
module CommandRouter {
  import opened Events
  import opened Display
  import opened ElectionViews
  import opened EventWriter

  /** A registered slash command: its name, description and required string options. */
  datatype CommandSpec = CommandSpec(name: string, description: string, options: seq<string>)

  /** The commands registered with the gateway, in registration order. */
  const Commands: seq<CommandSpec> := [
    CommandSpec("hello", "Replies with Hello!", []),
    CommandSpec("view-ongoing-elections", "View ongoing elections", []),
    CommandSpec("view-past-elections", "View past elections", []),
    CommandSpec("view-election-details", "View details of an election", ["election_id"]),
    CommandSpec("view-candidates", "View candidates for an election", ["election_id"]),
    CommandSpec("cast-vote", "Cast a vote for a candidate", ["email_address", "election_id", "candidate_id"]),
    CommandSpec("register-candidate", "Register as a candidate", ["email_address", "election_id", "candidate_name"]),
    CommandSpec("help", "Help command", [])
  ]

  /** The lines of the /help reply: each command with its description. */
  const HelpEntries: seq<(string, string)> := [
    ("hello", "Replies with Hello!"),
    ("view-ongoing-elections", "View ongoing elections"),
    ("view-past-elections", "View past elections"),
    ("view-election-details", "View details of an election"),
    ("view-candidates", "View candidates for an election"),
    ("cast-vote", "Cast a vote for a candidate"),
    ("register-candidate", "Register as a candidate"),
    ("help", "Help command")
  ]

  ghost predicate IsRegistered(name: string)
  {
    exists c :: c in Commands && c.name == name
  }

  /** The listing /help shows is the registered command table, entry for entry. */
  lemma HelpListsRegisteredCommands()
    ensures |HelpEntries| == |Commands|
    ensures forall i :: 0 <= i < |Commands| ==> HelpEntries[i] == (Commands[i].name, Commands[i].description)
  {
  }

  /** The commands the handler's if-else chain tells apart, and everything else. */
  datatype Command =
    | Hello | ViewOngoingElections | ViewPastElections | ViewElectionDetails
    | ViewCandidates | CastVote | RegisterCandidate | Help | Unrecognised

  /** The name a recognised command is invoked by. */
  function NameOf(c: Command): string
    requires c != Unrecognised
  {
    match c
    case Hello => "hello"
    case ViewOngoingElections => "view-ongoing-elections"
    case ViewPastElections => "view-past-elections"
    case ViewElectionDetails => "view-election-details"
    case ViewCandidates => "view-candidates"
    case CastVote => "cast-vote"
    case RegisterCandidate => "register-candidate"
    case Help => "help"
  }

  /** The handler's comparisons of `commandName` against each command name, in order. */
  function CommandOf(name: string): (c: Command)
    ensures c != Unrecognised ==> NameOf(c) == name
  {
    if name == "hello" then Hello
    else if name == "view-ongoing-elections" then ViewOngoingElections
    else if name == "view-past-elections" then ViewPastElections
    else if name == "view-election-details" then ViewElectionDetails
    else if name == "view-candidates" then ViewCandidates
    else if name == "cast-vote" then CastVote
    else if name == "register-candidate" then RegisterCandidate
    else if name == "help" then Help
    else Unrecognised
  }

  /** Every recognised command is reached by its own name. */
  lemma CommandOfNameOf(c: Command)
    requires c != Unrecognised
    ensures CommandOf(NameOf(c)) == c
  {
  }

  /** The handler recognises exactly the registered commands, no more and no fewer. */
  lemma RecognisedExactlyRegistered(name: string)
    ensures CommandOf(name) != Unrecognised <==> IsRegistered(name)
  {
    assert CommandOf(name) != Unrecognised ==> IsRegistered(name) by {
      assert Commands[0] in Commands && Commands[1] in Commands && Commands[2] in Commands && Commands[3] in Commands;
      assert Commands[4] in Commands && Commands[5] in Commands && Commands[6] in Commands && Commands[7] in Commands;
    }
    assert IsRegistered(name) ==> CommandOf(name) != Unrecognised by {
      if IsRegistered(name) {
        var c :| c in Commands && c.name == name;
        var i :| 0 <= i < |Commands| && Commands[i] == c;
        assert i < 8;
      }
    }
  }

  /** The string options each command reads with getString. */
  function RequiredOptions(c: Command): seq<string>
  {
    match c
    case ViewElectionDetails | ViewCandidates => ["election_id"]
    case CastVote => ["email_address", "election_id", "candidate_id"]
    case RegisterCandidate => ["email_address", "election_id", "candidate_name"]
    case _ => []
  }

  /** The options each command reads are the ones it was registered with as required. */
  lemma RequiredOptionsAsRegistered()
    ensures forall i :: 0 <= i < |Commands| ==> RequiredOptions(CommandOf(Commands[i].name)) == Commands[i].options
  {
  }

  /** One interaction: whether it is a slash command, its name, its string options and the invoking user. */
  datatype Invocation = Invocation(isCommand: bool, commandName: string, options: map<string, string>, userId: string)

  /** The gateway delivers every option the invoked command declares as required. */
  predicate OptionsSupplied(inv: Invocation)
  {
    forall o :: o in RequiredOptions(CommandOf(inv.commandName)) ==> o in inv.options
  }

  /** The topic ids the two write commands submit to. */
  datatype Config = Config(votedTopicId: string, candidateAddedTopicId: string)

  /** The three logs as fetched and decoded for this invocation. */
  datatype Logs = Logs(created: seq<Event>, ended: seq<Event>, candidateAdded: seq<Event>)

  /** The replies, by kind; their Markdown layout is not modelled. */
  datatype Reply =
    | Text(text: string)
    | ElectionList(lines: seq<ElectionLine>)
    | CandidateList(names: seq<string>)
    | DetailBlock(detail: Detail)
    | ElectionNotFound(electionId: string)
    | HelpListing(entries: seq<(string, string)>)

  /** A record handed to the ledger-append call, with the topic it goes to. */
  datatype Append = Append(topicId: string, record: Event)

  /** What one invocation does: the reply it sends, if any, and the record it submits, if any. */
  datatype Outcome = Outcome(reply: Option<Reply>, append: Option<Append>)

  const InvalidCommand: Reply := Text("Invalid command")

  /** `interaction.options.getString(key)`: None when the option was not given. */
  function GetString(inv: Invocation, key: string): (r: Option<string>)
    ensures r.Some? <==> key in inv.options
    ensures r.Some? ==> r.value == inv.options[key]
  {
    if key in inv.options then Some(inv.options[key]) else None
  }

  /** /view-ongoing-elections: the ongoing elections, one line each, or a fixed text when there are none. */
  function OngoingReply(logs: Logs): (r: Reply)
    ensures r == Text("No ongoing elections") <==> forall e :: e in logs.created ==> HasEndedRecord(logs.ended, e.electionId)
    ensures r.ElectionList? ==> r.lines == ElectionLines(OngoingElections(logs.created, logs.ended))
    ensures r.ElectionList? || r == Text("No ongoing elections")
  {
    var ongoing := OngoingElections(logs.created, logs.ended);
    if |ongoing| > 0 then ElectionList(ElectionLines(ongoing)) else Text("No ongoing elections")
  }

  /** /view-past-elections: every ended record, one line each, or a fixed text when there are none. */
  function PastReply(logs: Logs): (r: Reply)
    ensures r == Text("No past elections") <==> logs.ended == []
    ensures r.ElectionList? ==> r.lines == ElectionLines(logs.ended)
    ensures r.ElectionList? || r == Text("No past elections")
  {
    var past := logs.ended;
    if |past| > 0 then ElectionList(ElectionLines(past)) else Text("No past elections")
  }

  /**
   * /view-election-details: the detail block, or "not found" naming the id;
   * None (no reply) when a candidate of that election has no name.
   */
  function DetailsReply(id: string, logs: Logs): (r: Option<Reply>)
    ensures r.None? <==> exists c :: c in logs.candidateAdded && c.electionId == Some(id) && c.candidateName.None?
    ensures r == Some(ElectionNotFound(id)) <==> r.Some? && forall e :: e in logs.created ==> e.electionId != Some(id)
    ensures r.Some? ==> r.value.ElectionNotFound? || r.value.DetailBlock?
    ensures r.Some? && r.value.DetailBlock? ==>
      r.value.detail == ElectionDetailAsWritten(id, logs.created, logs.ended, logs.candidateAdded).detail
  {
    match ElectionDetailAsWritten(id, logs.created, logs.ended, logs.candidateAdded)
    case Found(d) => Some(DetailBlock(d))
    case NotFound(_) => Some(ElectionNotFound(id))
    case NameMissing => None
  }

  /**
   * /view-candidates: the quote-stripped names of the election's candidates
   * in log order, a fixed text when it has none, and no reply when one of
   * them has no name.
   */
  function CandidatesReply(id: string, logs: Logs): (r: Option<Reply>)
    ensures r == Some(Text("No candidates found for this election")) <==>
      forall c :: c in logs.candidateAdded ==> c.electionId != Some(id)
    ensures r.None? <==> exists c :: c in logs.candidateAdded && c.electionId == Some(id) && c.candidateName.None?
    ensures r.Some? && r.value.CandidateList? ==>
      var roster := Candidates(id, logs.candidateAdded);
      |r.value.names| == |roster| && forall k :: 0 <= k < |roster| ==>
        roster[k].candidateName.Some? && r.value.names[k] == StripQuotes(roster[k].candidateName.value)
    ensures r.Some? ==> r.value.CandidateList? || r.value == Text("No candidates found for this election")
  {
    var roster := Candidates(id, logs.candidateAdded);
    CandidateNamesSpec(roster);
    if |roster| > 0 then
      match CandidateNames(roster)
      case Some(names) => Some(CandidateList(names))
      case None => None
    else Some(Text("No candidates found for this election"))
  }

  /** /cast-vote: one voted record for the voted topic, with the options given and the invoking user as voter. */
  function CastVoteAppend(inv: Invocation, config: Config, epochSeconds: nat): (a: Append)
    requires "email_address" in inv.options && "election_id" in inv.options && "candidate_id" in inv.options
    ensures a.topicId == config.votedTopicId
    ensures a.record.kind == Some("voted") && a.record.voterId == Some(inv.userId)
    ensures a.record.electionId == GetString(inv, "election_id")
    ensures a.record.candidateId == GetString(inv, "candidate_id")
    ensures a.record.email == GetString(inv, "email_address")
    ensures a.record.timestamp == Some(Seconds(epochSeconds)) && 0 <= a.record.timestamp.value < 60
    ensures a.record.origin == Some("discord") && a.record.txnHash.None? && a.record.contractId.None?
    ensures a.record.electionName.None? && a.record.winnerName.None? && a.record.candidateName.None?
  {
    var opts := inv.options;
    Append(config.votedTopicId, VotedRecord(opts["election_id"], opts["candidate_id"], inv.userId, opts["email_address"], epochSeconds))
  }

  /**
   * /register-candidate: one candidate-added record for the candidate-added
   * topic, whose candidate id is the invoking user's id, not an option.
   */
  function RegisterCandidateAppend(inv: Invocation, config: Config, epochSeconds: nat): (a: Append)
    requires "email_address" in inv.options && "election_id" in inv.options && "candidate_name" in inv.options
    ensures a.topicId == config.candidateAddedTopicId
    ensures a.record.kind == Some("candidateAdded") && a.record.candidateId == Some(inv.userId)
    ensures a.record.electionId == GetString(inv, "election_id")
    ensures a.record.candidateName == GetString(inv, "candidate_name")
    ensures a.record.email == GetString(inv, "email_address")
    ensures a.record.timestamp == Some(Seconds(epochSeconds)) && 0 <= a.record.timestamp.value < 60
    ensures a.record.origin == Some("discord") && a.record.txnHash.None? && a.record.contractId.None?
    ensures a.record.electionName.None? && a.record.winnerName.None? && a.record.voterId.None?
  {
    var opts := inv.options;
    Append(config.candidateAddedTopicId,
      CandidateAddedRecord(opts["election_id"], inv.userId, opts["candidate_name"], opts["email_address"], epochSeconds))
  }

  /**
   * The handler's if-else chain over the command name. `epochSeconds` is
   * the clock reading the write commands stamp their records with.
   */
  function Dispatch(inv: Invocation, logs: Logs, config: Config, epochSeconds: nat): (out: Outcome)
    requires OptionsSupplied(inv)
    ensures !inv.isCommand ==> out == Outcome(None, None)
    ensures inv.isCommand ==> (out.reply == Some(InvalidCommand) <==> CommandOf(inv.commandName) == Unrecognised)
    ensures out.append.Some? <==> inv.isCommand && CommandOf(inv.commandName) in {CastVote, RegisterCandidate}
    ensures out.append.Some? ==> out.reply.None?
    ensures inv.isCommand && out.reply.None? && out.append.None? ==>
      CommandOf(inv.commandName) in {ViewElectionDetails, ViewCandidates}
    ensures inv.isCommand ==> match CommandOf(inv.commandName)
      case Hello => out.reply == Some(Text("Welcome to Voting DApp Bot!"))
      case ViewOngoingElections => out.reply == Some(OngoingReply(logs))
      case ViewPastElections => out.reply == Some(PastReply(logs))
      case ViewElectionDetails => out.reply == DetailsReply(GetString(inv, "election_id").value, logs)
      case ViewCandidates => out.reply == CandidatesReply(GetString(inv, "election_id").value, logs)
      case CastVote => out.append == Some(CastVoteAppend(inv, config, epochSeconds))
      case RegisterCandidate => out.append == Some(RegisterCandidateAppend(inv, config, epochSeconds))
      case Help => out.reply == Some(HelpListing(HelpEntries))
      case Unrecognised => out == Outcome(Some(InvalidCommand), None)
  {
    if !inv.isCommand then Outcome(None, None)
    else match CommandOf(inv.commandName)
      case Hello => Outcome(Some(Text("Welcome to Voting DApp Bot!")), None)
      case ViewOngoingElections => Outcome(Some(OngoingReply(logs)), None)
      case ViewPastElections => Outcome(Some(PastReply(logs)), None)
      case ViewElectionDetails => Outcome(DetailsReply(inv.options["election_id"], logs), None)
      case ViewCandidates => Outcome(CandidatesReply(inv.options["election_id"], logs), None)
      case CastVote => Outcome(None, Some(CastVoteAppend(inv, config, epochSeconds)))
      case RegisterCandidate => Outcome(None, Some(RegisterCandidateAppend(inv, config, epochSeconds)))
      case Help => Outcome(Some(HelpListing(HelpEntries)), None)
      case Unrecognised => Outcome(Some(InvalidCommand), None)
  }

  /** "Invalid command" is the reply to exactly the commands that were never registered. */
  lemma InvalidExactlyWhenUnregistered(inv: Invocation, logs: Logs, config: Config, epochSeconds: nat)
    requires OptionsSupplied(inv) && inv.isCommand
    ensures Dispatch(inv, logs, config, epochSeconds).reply == Some(InvalidCommand) <==> !IsRegistered(inv.commandName)
  {
    RecognisedExactlyRegistered(inv.commandName);
  }
}
