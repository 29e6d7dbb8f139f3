/**
 * The list page's filter (app/polls/page.tsx:52-76): first by the selected
 * tab, then by a case-insensitive search over title and description.
 */
module PollList {
  import opened Types
  import opened Strings
  import Seqs

  /** The tab filter of lines 58-64; an unknown tab (such as 'all') keeps every poll. */
  predicate TabKeeps(tab: string, userId: Option<string>, p: Poll)
  {
    if tab == "active" then p.status == Active
    else if tab == "ended" then p.status == Ended
    else if tab == "my-polls" then userId.Some? && p.creatorId == userId.value
    else true
  }

  /** The search filter of lines 67-73; an empty query keeps every poll. */
  predicate SearchKeeps(query: string, p: Poll)
  {
    query == "" || Contains(Lower(p.title), Lower(query)) || Contains(Lower(p.description), Lower(query))
  }

  /** The list the effect computes from the fetched polls. */
  function Filtered(polls: seq<Poll>, tab: string, query: string, userId: Option<string>): (r: seq<Poll>)
    ensures Seqs.IsSubsequence(r, polls)
    ensures forall p :: p in r <==> p in polls && TabKeeps(tab, userId, p) && SearchKeeps(query, p)
    ensures forall p :: multiset(r)[p] == if TabKeeps(tab, userId, p) && SearchKeeps(query, p) then multiset(polls)[p] else 0
  {
    var byTab := Seqs.Filter((p: Poll) => TabKeeps(tab, userId, p), polls);
    Seqs.FilterIsSubsequence((p: Poll) => TabKeeps(tab, userId, p), polls);
    if query == "" then byTab
    else
      var bySearch := Seqs.Filter((p: Poll) => SearchKeeps(query, p), byTab);
      Seqs.FilterIsSubsequence((p: Poll) => SearchKeeps(query, p), byTab);
      Seqs.SubsequenceTransitive(bySearch, byTab, polls);
      bySearch
  }

  /** The effect as a whole: with nothing fetched it returns early and the shown list stays as it was. */
  function FilterEffect(shown: seq<Poll>, polls: seq<Poll>, tab: string, query: string, userId: Option<string>): (r: seq<Poll>)
    ensures polls == [] ==> r == shown
    ensures polls != [] ==> r == Filtered(polls, tab, query, userId)
  {
    if |polls| == 0 then shown else Filtered(polls, tab, query, userId)
  }

  /** What each tab keeps. */
  lemma TabCases(tab: string, userId: Option<string>, polls: seq<Poll>)
    ensures tab == "active" ==> forall p :: p in Filtered(polls, tab, "", userId) <==> p in polls && p.status == Active
    ensures tab == "ended" ==> forall p :: p in Filtered(polls, tab, "", userId) <==> p in polls && p.status == Ended
    ensures tab == "my-polls" ==> forall p :: p in Filtered(polls, tab, "", userId) <==>
              p in polls && userId.Some? && p.creatorId == userId.value
    ensures tab !in {"active", "ended", "my-polls"} ==> Filtered(polls, tab, "", userId) == polls
  {
    if tab !in {"active", "ended", "my-polls"} {
      Seqs.FilterKeepsAll((p: Poll) => TabKeeps(tab, userId, p), polls);
    }
  }

  /** With no user, the 'my-polls' tab shows nothing. */
  lemma MyPollsNeedsUser(polls: seq<Poll>, query: string)
    ensures Filtered(polls, "my-polls", query, None) == []
  {
    Seqs.FilterKeepsNone((p: Poll) => TabKeeps("my-polls", None, p), polls);
  }

  lemma LowerOfUpperChar(c: char)
    ensures LowerChar(UpperChar(c)) == LowerChar(c)
  {
  }

  /** Lowercasing forgets any earlier uppercasing. */
  lemma LowerOfUpper(s: string)
    ensures Lower(Upper(s)) == Lower(s)
  {
    forall i | 0 <= i < |s|
      ensures Lower(Upper(s))[i] == Lower(s)[i]
    {
      LowerOfUpperChar(s[i]);
    }
  }

  /** Lowercasing twice is lowercasing once. */
  lemma LowerTwice(s: string)
    ensures Lower(Lower(s)) == Lower(s)
  {
    assert forall i :: 0 <= i < |s| ==> Lower(Lower(s))[i] == Lower(s)[i];
  }

  /** The search does not depend on the case of the query. */
  lemma SearchIgnoresCase(polls: seq<Poll>, tab: string, query: string, userId: Option<string>)
    ensures Filtered(polls, tab, Upper(query), userId) == Filtered(polls, tab, query, userId)
    ensures Filtered(polls, tab, Lower(query), userId) == Filtered(polls, tab, query, userId)
  {
    LowerOfUpper(query);
    LowerTwice(query);
    var byTab := Seqs.Filter((p: Poll) => TabKeeps(tab, userId, p), polls);
    Seqs.FilterSameFilter((p: Poll) => SearchKeeps(Upper(query), p), (p: Poll) => SearchKeeps(query, p), byTab);
    Seqs.FilterSameFilter((p: Poll) => SearchKeeps(Lower(query), p), (p: Poll) => SearchKeeps(query, p), byTab);
  }
}
