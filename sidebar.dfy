/** The session search box of the sidebar. */
module Sidebar {
  import opened Strings
  import opened Seqs
  import opened ChatInterface

  /** A session matches when its lower-cased title or summary contains the lower-cased term. */
  predicate Matches(session: Session, searchTerm: string)
  {
    Contains(Lower(session.title), Lower(searchTerm)) ||
    Contains(Lower(session.summary), Lower(searchTerm))
  }

  function MatchesTerm(searchTerm: string): Session -> bool
  {
    (s: Session) => Matches(s, searchTerm)
  }

  /** `filteredSessions`: the sessions to list for the current search term. */
  function FilterSessions(sessions: seq<Session>, searchTerm: string): seq<Session>
  {
    Filter(sessions, MatchesTerm(searchTerm))
  }

  /**
    The listed sessions are records of `sessions`, unchanged and in their
    original order; a session is listed exactly when its lower-cased title or
    summary has the lower-cased term as a substring.
  */
  lemma FilterSessionsSpec(sessions: seq<Session>, searchTerm: string)
    ensures Subsequence(FilterSessions(sessions, searchTerm), sessions)
    ensures forall s :: s in FilterSessions(sessions, searchTerm) <==>
      s in sessions &&
      (Contains(Lower(s.title), Lower(searchTerm)) || Contains(Lower(s.summary), Lower(searchTerm)))
  {
    FilterSubsequence(sessions, MatchesTerm(searchTerm));
    forall s
      ensures s in FilterSessions(sessions, searchTerm) <==>
        s in sessions &&
        (Contains(Lower(s.title), Lower(searchTerm)) || Contains(Lower(s.summary), Lower(searchTerm)))
    {
      FilterMembership(sessions, MatchesTerm(searchTerm), s);
    }
  }

  /** The initial, empty search term lists every session. */
  lemma EmptyTermKeepsAll(sessions: seq<Session>)
    ensures FilterSessions(sessions, "") == sessions
  {
    forall i | 0 <= i < |sessions| ensures MatchesTerm("")(sessions[i]) {
      ContainsEmpty(Lower(sessions[i].title), Lower(""));
    }
    FilterKeepsAll(sessions, MatchesTerm(""));
  }

  /** Terms that differ only in the case of ASCII letters list the same sessions. */
  lemma CaseInsensitive(sessions: seq<Session>, term1: string, term2: string)
    requires Lower(term1) == Lower(term2)
    ensures FilterSessions(sessions, term1) == FilterSessions(sessions, term2)
  {
    FilterCongruent(sessions, MatchesTerm(term1), MatchesTerm(term2));
  }

  /** In particular, lower-casing the term first changes nothing. */
  lemma LowerTermSameResult(sessions: seq<Session>, searchTerm: string)
    ensures FilterSessions(sessions, Lower(searchTerm)) == FilterSessions(sessions, searchTerm)
  {
    LowerIdempotent(searchTerm);
    CaseInsensitive(sessions, Lower(searchTerm), searchTerm);
  }
}
