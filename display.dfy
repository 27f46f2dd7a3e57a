/** What the replies show of a record: quote-stripped candidate names and election names with a default. */
module Display {
  import opened Events
  import opened Sequences

  const Quote: char := '\''

  function IsNotQuote(c: char): bool { c != Quote }

  /** `name.replaceAll("'", "")`: the name with every single quote removed. */
  function StripQuotes(name: string): (r: string)
    ensures Quote !in r
    ensures forall c :: c in r <==> c in name && c != Quote
    ensures |r| <= |name|
  {
    FilterMembers(name, IsNotQuote);
    Filter(name, IsNotQuote)
  }

  /**
   * Nothing but the quotes goes: every other character keeps its number of
   * occurrences and its order, and the result is shorter by the number of quotes.
   */
  lemma StripQuotesKeepsOthers(name: string)
    ensures IsSubsequence(StripQuotes(name), name)
    ensures forall c :: c != Quote ==> multiset(StripQuotes(name))[c] == multiset(name)[c]
    ensures |StripQuotes(name)| == |name| - multiset(name)[Quote]
  {
    FilterIsSubsequence(name, IsNotQuote);
    forall c ensures multiset(StripQuotes(name))[c] == if c != Quote then multiset(name)[c] else 0 {
      FilterCounts(name, IsNotQuote, c);
    }
    var r := StripQuotes(name);
    assert multiset(name) == multiset(r)[Quote := multiset(name)[Quote]];
  }

  /** Stripping twice is the same as stripping once. */
  lemma StripQuotesIdempotent(name: string)
    ensures StripQuotes(StripQuotes(name)) == StripQuotes(name)
  {
    FilterIdempotent(name, IsNotQuote);
  }

  /** A name without quotes is shown as it is. */
  lemma StripQuotesNoQuote(name: string)
    requires Quote !in name
    ensures StripQuotes(name) == name
  {
    FilterAllKept(name, IsNotQuote);
  }

  lemma StripQuotesExample()
    ensures StripQuotes("O'Brien") == "OBrien"
  {
    assert "O'Brien" == ("O" + [Quote]) + "Brien";
    FilterConcat("O" + [Quote], "Brien", IsNotQuote);
    FilterConcat("O", [Quote], IsNotQuote);
    StripQuotesNoQuote("O");
    StripQuotesNoQuote("Brien");
    assert StripQuotes([Quote]) == [];
  }

  /** `electionName ?? "Untitled"`: a missing or null name shows as "Untitled", any present one as it is. */
  function DisplayName(name: Option<string>): (r: string)
    ensures name.Some? ==> r == name.value
    ensures name.None? ==> r == "Untitled"
  {
    match name
    case Some(n) => n
    case None => "Untitled"
  }

  /** One line of an election listing: the id as stored and the displayed name. */
  datatype ElectionLine = ElectionLine(electionId: Option<string>, name: string)

  /** `elections.map(...)` in the two listing commands. */
  function ElectionLines(elections: seq<Event>): (r: seq<ElectionLine>)
    ensures |r| == |elections|
    ensures forall i :: 0 <= i < |elections| ==>
      r[i].electionId == elections[i].electionId && r[i].name == DisplayName(elections[i].electionName)
  {
    if elections == [] then []
    else [ElectionLine(elections[0].electionId, DisplayName(elections[0].electionName))] + ElectionLines(elections[1..])
  }

  /**
   * `candidates.map(c => c.candidateName.replaceAll("'", ""))`. A record
   * without a candidate name makes replaceAll throw, so the whole map fails.
   */
  function CandidateNames(roster: seq<Event>): (r: Option<seq<string>>)
    ensures r.Some? ==> |r.value| == |roster|
  {
    if roster == [] then Some([])
    else match (roster[0].candidateName, CandidateNames(roster[1..]))
      case (Some(n), Some(rest)) => Some([StripQuotes(n)] + rest)
      case _ => None
  }

  /**
   * The names fail exactly when some record has no name; otherwise the k-th
   * name is the k-th record's name with its quotes stripped.
   */
  lemma {:induction false} CandidateNamesSpec(roster: seq<Event>)
    ensures CandidateNames(roster).None? <==> exists c :: c in roster && c.candidateName.None?
    ensures CandidateNames(roster).Some? ==> forall k :: 0 <= k < |roster| ==>
      roster[k].candidateName.Some? && CandidateNames(roster).value[k] == StripQuotes(roster[k].candidateName.value)
  {
    if roster != [] {
      CandidateNamesSpec(roster[1..]);
      assert roster == [roster[0]] + roster[1..];
    }
  }

  /** Names of records appended to a roster are appended to its names. */
  lemma {:induction false} CandidateNamesConcat(a: seq<Event>, b: seq<Event>)
    requires CandidateNames(a).Some? && CandidateNames(b).Some?
    ensures CandidateNames(a + b) == Some(CandidateNames(a).value + CandidateNames(b).value)
  {
    var rest := CandidateNames(b).value;
    if a == [] {
      assert a + b == b && [] + rest == rest;
    } else {
      CandidateNamesConcat(a[1..], b);
      var head := [StripQuotes(a[0].candidateName.value)];
      var tail := CandidateNames(a[1..]).value;
      assert CandidateNames(a + b) == Some(head + (tail + rest)) by {
        assert (a + b)[0] == a[0] && (a + b)[1..] == a[1..] + b;
      }
      assert head + (tail + rest) == (head + tail) + rest;
    }
  }
}
