# Voting DApp Discord bot: election views, event records and command dispatch

The bot answers slash commands about elections kept on an append-only
ledger. Three topics hold the election-created, election-ended and
candidate-added records; a fourth takes the votes. Read commands fetch a
topic's messages, decode them into records, and derive views in memory:
the ongoing elections (created minus ended), a candidate roster per
election, and the detail page of one election. Write commands build a
`voted` or `candidateAdded` record and hand it to the ledger-append call.

This project models that derivation layer of `index.js` in Dafny:

- `events.dfy` (module `Events`): a decoded record. JSON.parse output is
  loosely typed, so every field is optional. An absent field and a null
  field both read as `None`.
- `sequences.dfy` (module `Sequences`): `filter` over sequences. Lemmas
  prove that it keeps exactly the matching elements, with their
  multiplicities and in order.
- `views.dfy` (module `ElectionViews`): `getOngoingElections`,
  `getCandidates`, and the lookup of the `view-election-details` branch.
- `display.dfy` (module `Display`): quote stripping of candidate names,
  the `"Untitled"` default, and the listing lines.
- `writer.dfy` (module `EventWriter`): the two records the write commands
  submit, the seconds-of-minute timestamp, and read-back lemmas.
- `router.dfy` (module `CommandRouter`): the registered command table and
  the handler's if-else chain, as a total function from an invocation and
  a snapshot of the logs to an `Outcome`. An `Outcome` is the reply sent,
  if any, plus the record submitted, if any.

In these places the model keeps the code's behaviour as written:

- The detail page reads the timestamp and `winnerName` from the *created*
  record.
- Timestamps are seconds within the minute (0 to 59).
- The two write commands send no reply at all.
- Candidate names are mapped before the lookup's result is tested
  (index.js:135, then 137). A candidate record of that election without
  a name therefore makes the handler throw, and the user gets no reply, even when the
  election does not exist.

## Model

| member | source | states |
|---|---|---|
| `ElectionViews.EndedIds` | index.js:255 | An id is in the ended-id set exactly when some ended record carries it. |
| `ElectionViews.OngoingElections` | index.js:252-259 | A record is ongoing iff it is a created record and no ended record has its id. The result is a subsequence of the created log, so created-log order is kept. An empty created log gives an empty result. |
| `ElectionViews.OngoingCounts` | index.js:257 | Each created record that has no ended record appears among the ongoing ones exactly as often as it was created. Every other record appears zero times. |
| `ElectionViews.OngoingPartition` | index.js:252-258 | Every created record is either ongoing or among the created records with an ended id, never both. The two lists together are the created log as a multiset, and their lengths add up to its length. |
| `ElectionViews.Candidates` | index.js:261-265 | The roster holds exactly the log records whose election id equals the given id, in log order. It is empty iff no record has that id. An empty log gives an empty roster. |
| `ElectionViews.CandidatesCounts` | index.js:264 | A matching record appears in the roster as often as in the log. A non-matching one never appears. |
| `ElectionViews.CandidatesAppend` | index.js:261-265 | Appending a record to the log adds it at the end of its own election's roster and leaves every other roster unchanged. |
| `ElectionViews.FindElection` | index.js:131 | `find` gives None iff no record has the id. Otherwise it gives the first record with that id: no earlier record matches. |
| `ElectionViews.IsEnded` | index.js:132-133 | `includes` on the ended ids is true iff some ended record has the id. |
| `ElectionViews.ElectionDetailAsWritten` | index.js:129-149 | The lookup fails with an exception iff a record on the election's roster has no candidate name. Otherwise it is "not found" (carrying the id) iff no created record has the id. When found, the detail comes from the first created record with the id. `ended` is membership in the ended ids. The winner is that created record's `winnerName` when ended, else "ongoing". The candidate names are the roster's names with quotes stripped, in order. |
| `ElectionViews.ElectionDetail` | index.js:138-146 | The corrected lookup: same failure and not-found cases as the as-written one, and "not found" carries the id. A found detail equals the as-written one except for the winner and the timestamp: same id, name, candidate names and ended flag. For an ongoing election the timestamp is the as-written one. For an ended election, the winner and the timestamp come from the first ended record with the id. |
| `ElectionViews.WinnerReadFromCreatedRecord` | index.js:143-145 | For the created record `{electionId: "E1"}` and the ended record `{electionId: "E1", winnerName: "Alice"}`, the as-written detail shows no winner. The corrected one shows "Alice". |
| `Display.StripQuotes` | index.js:135 | `replaceAll("'", "")` leaves no quote. It keeps exactly the characters of the input that are not quotes. |
| `Display.StripQuotesKeepsOthers` | index.js:155 | Stripping keeps every other character in order and with its count. The result is shorter by exactly the number of quotes. |
| `Display.StripQuotesIdempotent` | index.js:155 | Stripping twice equals stripping once. |
| `Display.StripQuotesNoQuote` | index.js:135 | A name without quotes is shown unchanged. |
| `Display.StripQuotesExample` | index.js:155 | `O'Brien` is shown as `OBrien`. |
| `Display.DisplayName` | index.js:112 | With `?? "Untitled"`, an absent or null election name shows as "Untitled". A present name, even an empty one, shows as it is. |
| `Display.ElectionLines` | index.js:111-113 | A listing has one line per election, in order. Each line has the record's id and its displayed name. |
| `Display.CandidateNames` | index.js:135 | When the name mapping succeeds, it gives one name per roster record. |
| `Display.CandidateNamesSpec` | index.js:154-156 | The name mapping fails iff some roster record has no name. Otherwise the k-th name is the k-th record's name with its quotes stripped. |
| `Display.CandidateNamesConcat` | index.js:154-156 | When the name mapping succeeds on both parts, the names of a concatenated roster are the concatenated names. |
| `EventWriter.Seconds` | index.js:177 | `getSeconds()` is below 60 and is the clock's position within its minute. |
| `EventWriter.SecondsWrap` | index.js:197 | One second after second 59 the timestamp is 0. Since both write records carry `Seconds` of the clock reading, a later record can carry a smaller timestamp. |
| `EventWriter.VotedRecord` | index.js:170-180 | The vote record has type "voted" and origin "discord". `txnHash` and `contractId` are null. Election, candidate and email come from the arguments, and the voter is the invoking user. The timestamp is the clock reading's second within its minute (`Seconds`), so it is in 0..59. No other field is set. |
| `EventWriter.CandidateAddedRecord` | index.js:190-200 | The candidate record has type "candidateAdded" and origin "discord". `txnHash` and `contractId` are null. The candidate id is the invoking user's id. Name, election and email come from the arguments. The timestamp is the clock reading's second within its minute (`Seconds`), so it is in 0..59. No other field is set. |
| `EventWriter.ReadVote` | index.js:170-176 | A record reads back as a vote iff its type is "voted" and all four vote fields are present. The vote's election, candidate, voter and email are then the record's fields. The handler never reads the voted topic; this reader is the round-trip partner of `VotedRecord` and has no counterpart in the file. |
| `EventWriter.VoteRoundTrip` | index.js:170-180 | The vote record reads back as exactly the arguments it was built from, whatever the clock says. |
| `EventWriter.RegisteredCandidateListed` | index.js:190-200 | When a registration record is appended at the end of the fetched candidate log, it ends its election's roster and leaves the others unchanged. If the roster's earlier records all have names, the listing gains its quote-stripped name at the end. |
| `CommandRouter.HelpListsRegisteredCommands` | index.js:202-212 | The /help listing is the registered command table, entry for entry (name and description). |
| `CommandRouter.CommandOf` | index.js:106-213 | A recognised name is the name of the command it selects. |
| `CommandRouter.CommandOfNameOf` | index.js:106-201 | Each of the eight commands is reached by its own name. |
| `CommandRouter.RecognisedExactlyRegistered` | index.js:8-95 | The handler recognises a name iff it was registered with the gateway. |
| `CommandRouter.RequiredOptionsAsRegistered` | index.js:19-90 | The options each command reads are exactly those registered as required for it. |
| `CommandRouter.GetString` | index.js:129 | `getString` gives an option's value when it was supplied, else None. |
| `CommandRouter.OngoingReply` | index.js:108-117 | /view-ongoing-elections lists the ongoing elections. It replies "No ongoing elections" iff every created record has an ended record. |
| `CommandRouter.PastReply` | index.js:118-127 | /view-past-elections lists every ended record. It replies "No past elections" iff the ended log is empty. |
| `CommandRouter.DetailsReply` | index.js:128-149 | /view-election-details sends no reply iff a candidate of that election has no name. It replies "not found" with the id iff no created record has the id. Otherwise it sends the as-written detail. |
| `CommandRouter.CandidatesReply` | index.js:150-160 | /view-candidates replies "No candidates found for this election" iff no record has the id. It sends no reply iff a roster record has no name. Otherwise it lists the roster's quote-stripped names in order. |
| `CommandRouter.CastVoteAppend` | index.js:161-180 | /cast-vote submits a voted record to the voted topic. Its election, candidate and email are the given options, its voter is the invoking user, and its timestamp is the clock reading's second within its minute, in 0..59. Its origin is "discord", `txnHash` and `contractId` are null, and no other field is set. |
| `CommandRouter.RegisterCandidateAppend` | index.js:181-200 | /register-candidate submits a candidate-added record to the candidate-added topic. The candidate id is the invoking user's id. Name, election and email are the given options. The timestamp is the clock reading's second within its minute, in 0..59, the origin is "discord", `txnHash` and `contractId` are null, and no other field is set. |
| `CommandRouter.Dispatch` | index.js:101-215 | Non-command interactions do nothing. An unrecognised name gets "Invalid command" and no write. A record is submitted iff the command is cast-vote or register-candidate, and then no reply is sent. Among commands, replying nothing and writing nothing happens only in the two roster-reading commands. Each recognised name is routed to its own reply or record. |
| `CommandRouter.InvalidExactlyWhenUnregistered` | index.js:213-215 | "Invalid command" is the reply iff the command name was never registered. |

## Left out

- The Discord client, its login, the `ready` handler and the REST registration of the commands (index.js:1-4, 97-99, 218-235) are network I/O. Only the registered command table is kept, as data.
- `getMessages` (index.js:237-240) is an HTTP fetch. The three logs are an input snapshot (`Logs`), taken in the order the log service returns them. Only the first page of a topic's messages is read: one GET, and only `data.messages` is used (index.js:238, 244, 249, 263), with no continuation link followed. `Logs` is that page. The model does not capture a longer log, so every statement about "the log" is about the fetched page. It also does not capture that one command's fetches are separate, non-atomic reads, nor fetch failures.
- `decodeMessages` (index.js:267-272) calls the runtime's `atob` and `JSON.parse`. Neither is implemented in the repository, so decoding, its exceptions on malformed payloads and any encode/decode round trip are not part of this model. Records are taken as already decoded. Each field is a string (the timestamp an integer) or missing/null. The model does not capture JSON values of other types.
- `createMessageInTopic` and `environmentSetup` (index.js:168, 170, 188, 190) are not part of this model: they are called but not defined in the file. The model keeps only the topic and the record handed to the call (`Append`), not whether the un-awaited submission succeeds.
- `process.env` becomes the `Config` value for the two write topics. The model does not capture a missing variable, which would pass `undefined` as the topic.
- `new Date().getSeconds()` becomes the `epochSeconds` parameter, taken modulo 60. The model assumes the local time zone's offset from UTC is a whole number of minutes.
- Replies are modelled by kind and content. Their Markdown layout, the `join` separators and the "Winner announced at" / "Started at" labels are not modelled. The label follows from the `ended` field. When a present field is null or absent, JavaScript renders it as "undefined" or "null"; the model shows it as `None`.
- The model does not capture failures of `interaction.reply` itself, or `interaction.member` being null (a command invoked outside a guild). The async interleaving of concurrent invocations is not modelled either.
- The TypeError a nameless candidate raises (index.js:135, 155) is modelled only as "no reply". The async handler has no `catch` and the file installs no `unhandledRejection` listener, so it becomes an unhandled promise rejection. The model does not capture what that does to the process.
- ElectionViews.OngoingElections: an absent `electionId` and a null one are both `None`, but `Set.has` (index.js:255-257) tells `undefined` from `null`. A created record without an id beside an ended record whose id is null is ongoing in the code and not in the model. The model does not capture that distinction.
- CommandRouter.Dispatch: requires `OptionsSupplied`, that is, the gateway delivers every option registered as required. `getString` is called without `required` (index.js:129, 151, 163-165, 183-185), so a missing option would give `null`, and a write would then carry `electionId: null`. The model assumes the gateway enforces the registered required options and does not capture that case.
- Display.CandidateNames: its own contract states only the length. The full element-by-element statement is proved separately, as `Display.CandidateNamesSpec`, so that proofs over concatenated rosters stay within the resource limit.

## Findings

| source | as written | input that shows it | evidently intended | confidence | as-written member | corrected member |
|---|---|---|---|---|---|---|
| index.js:143-145 | The detail reply reads `timestamp` and `winnerName` from `election`, the *created* record. | created `[{electionId: "E1"}]`, ended `[{electionId: "E1", winnerName: "Alice"}]`, `/view-election-details E1`: the reply shows Ended: true and Winner: undefined. | The winner, and the "Winner announced at" time, come from the election's ended record, so the reply shows Winner: Alice. | medium, not executed | `ElectionViews.ElectionDetailAsWritten`, shown by `ElectionViews.WinnerReadFromCreatedRecord` | `ElectionViews.ElectionDetail` |

`CommandRouter.Dispatch` keeps the as-written lookup, because it models the handler as the file has it. `ElectionViews.ElectionDetail` is the corrected lookup, with the intended property proved in its contract.
