/**
 * The location-suggestion heuristic: a session's participant count picks one
 * of three kinds of room.
 */
module LocationSuggestion {
  import Models

  /** The three suggestions, ordered by the size of group they suit. */
  datatype Location = LibraryGroupStudyRoom | StudentUnionTables | BookPrivateLibraryRoom
  {
    /** The text shown to the user. */
    function Label(): string
    {
      match this
      case LibraryGroupStudyRoom => "Library Group Study Room"
      case StudentUnionTables => "Student Union Tables"
      case BookPrivateLibraryRoom => "Book Private Library Room"
    }

    /** The position of the suggestion in the order of group sizes. */
    function Rank(): nat
    {
      match this
      case LibraryGroupStudyRoom => 0
      case StudentUnionTables => 1
      case BookPrivateLibraryRoom => 2
    }
  }

  /** The suggestion for a given number of participants. */
  function LocationFor(participantCount: int): (r: Location)
    ensures r == LibraryGroupStudyRoom <==> participantCount <= 3
    ensures r == StudentUnionTables <==> 4 <= participantCount <= 6
    ensures r == BookPrivateLibraryRoom <==> 7 <= participantCount
  {
    if participantCount <= 3 then LibraryGroupStudyRoom
    else if participantCount <= 6 then StudentUnionTables
    else BookPrivateLibraryRoom
  }

  /** `suggest_location(session)`: the suggestion for the session's current members. */
  function SuggestLocation(members: set<Models.Membership>, sessionId: nat): (r: Location)
    ensures r == LocationFor(|Models.MembersOf(members, sessionId)|)
  {
    LocationFor(Models.ParticipantCount(members, sessionId))
  }

  /** The three labels are different texts, so a label names exactly one suggestion. */
  lemma LabelsDistinct(a: Location, b: Location)
    ensures a.Label() == b.Label() <==> a == b
  {
  }

  /** A larger group never gets a suggestion meant for a smaller one. */
  lemma LocationMonotone(a: int, b: int)
    requires a <= b
    ensures LocationFor(a).Rank() <= LocationFor(b).Rank()
  {
  }

  /** The two boundaries of the heuristic. */
  lemma LocationBoundaries()
    ensures LocationFor(3) == LibraryGroupStudyRoom && LocationFor(4) == StudentUnionTables
    ensures LocationFor(6) == StudentUnionTables && LocationFor(7) == BookPrivateLibraryRoom
  {
  }

  /** Two sessions with as many members get the same suggestion, whoever the members are. */
  lemma SuggestionDependsOnCountOnly(members: set<Models.Membership>, s: nat,
                                     members': set<Models.Membership>, t: nat)
    requires Models.ParticipantCount(members, s) == Models.ParticipantCount(members', t)
    ensures SuggestLocation(members, s) == SuggestLocation(members', t)
  {
  }
}
