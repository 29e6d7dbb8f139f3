/**
 * The read side of lib/db/poll-utils.ts: the transformation that
 * `getPolls`, `getPollById` and `getUserPolls` apply to the rows they fetch.
 * The vote total and the percentages are derived at read time and never stored.
 */
module PollRead {
  import opened Types
  import opened Rows

  /** A poll row as the three queries select it: its option rows and the creator's profile. */
  datatype PollWithRelations = PollWithRelations(poll: PollRow, options: seq<OptionRow>, profile: Option<ProfileRow>)

  const UnknownUser := "Unknown User"

  /** `poll_options.reduce((sum, option) => sum + (option.votes || 0), 0)`, folded from the left. */
  function TotalVotes(rows: seq<OptionRow>): nat
  {
    if rows == [] then 0 else TotalVotes(rows[..|rows| - 1]) + Count(rows[|rows| - 1].votes)
  }

  /** The sum of the counters of the options of a read poll. */
  function SumOptionVotes(options: seq<PollOption>): nat
  {
    if options == [] then 0 else SumOptionVotes(options[..|options| - 1]) + options[|options| - 1].votes
  }

  /**
   * `Math.round(votes / total * 100)` when `total > 0`, else 0, in exact
   * integer arithmetic: the integer nearest to 100·votes/total, halves rounded up.
   */
  function Percentage(votes: nat, total: nat): (p: nat)
    ensures total == 0 ==> p == 0
    ensures total > 0 ==> 2 * total * p <= 200 * votes + total < 2 * total * (p + 1)
    ensures votes <= total ==> p <= 100
  {
    if total == 0 then 0
    else
      var p := (200 * votes + total) / (2 * total);
      PercentageBound(votes, total, p);
      p
  }

  lemma PercentageBound(votes: nat, total: nat, p: nat)
    requires total > 0 && p == (200 * votes + total) / (2 * total)
    ensures 2 * total * p <= 200 * votes + total < 2 * total * (p + 1)
    ensures votes <= total ==> p <= 100
  {
    var d := 2 * total;
    var n := 200 * votes + total;
    var rem := n % d;
    assert n == d * p + rem && 0 <= rem < d;
    assert d * (p + 1) == d * p + d;
    if votes <= total && p > 100 {
      MulAtLeast(d, 101, p);
    }
  }

  lemma MulAtLeast(d: nat, a: nat, b: nat)
    requires a <= b
    ensures d * a <= d * b
  {
    assert d * b == d * a + d * (b - a);
  }

  /** Every counter of a poll is at most the poll's total. */
  lemma {:induction false} CountAtMostTotal(rows: seq<OptionRow>, i: nat)
    requires i < |rows|
    ensures Count(rows[i].votes) <= TotalVotes(rows)
  {
    if i < |rows| - 1 {
      CountAtMostTotal(rows[..|rows| - 1], i);
    }
  }

  function ToOption(pollId: string, row: OptionRow, total: nat, index: nat): PollOption
  {
    PollOption(row.id, pollId, row.text, Count(row.votes), Percentage(Count(row.votes), total), index)
  }

  /** `poll_options.map((option, index) => …)`. */
  function ToOptions(pollId: string, rows: seq<OptionRow>, total: nat): seq<PollOption>
  {
    seq(|rows|, i requires 0 <= i < |rows| => ToOption(pollId, rows[i], total, i))
  }

  /** The mapped options add up to the same total as the rows they come from. */
  lemma {:induction false} OptionsKeepTotal(pollId: string, rows: seq<OptionRow>, total: nat)
    ensures SumOptionVotes(ToOptions(pollId, rows, total)) == TotalVotes(rows)
  {
    if rows != [] {
      var n := |rows|;
      assert ToOptions(pollId, rows, total)[..n - 1] == ToOptions(pollId, rows[..n - 1], total);
      OptionsKeepTotal(pollId, rows[..n - 1], total);
    }
  }

  /** The creator as the queries build it; with no profile, 'Unknown User', '' and no avatar. */
  function Creator(row: PollRow, profile: Option<ProfileRow>): User
  {
    if profile.None? then User(row.creatorId, "", UnknownUser, None)
    else
      var pr := profile.value;
      User(row.creatorId, Text(pr.email), if Present(pr.name) then pr.name.value else UnknownUser, pr.avatarUrl)
  }

  /**
   * What every read poll satisfies: the total is the sum of the counters,
   * each option's order is its index, and each percentage is the rounded
   * share of the total, between 0 and 100.
   */
  ghost predicate WellFormedPoll(p: Poll)
  {
    && p.totalVotes == SumOptionVotes(p.options)
    && forall i :: 0 <= i < |p.options| ==>
         && p.options[i].order == i
         && p.options[i].pollId == p.id
         && p.options[i].votes <= p.totalVotes
         && p.options[i].percentage == Percentage(p.options[i].votes, p.totalVotes)
         && p.options[i].percentage <= 100
  }

  /** The per-poll transformation of lib/db/poll-utils.ts:41-80 (and 122-161, 585-628). */
  function ToPoll(f: PollWithRelations): (p: Poll)
    ensures WellFormedPoll(p)
    ensures p.id == f.poll.id && p.creatorId == f.poll.creatorId && p.status == f.poll.status
    ensures p.totalVotes == TotalVotes(f.options)
    ensures |p.options| == |f.options|
    ensures forall i :: 0 <= i < |f.options| ==>
              && p.options[i].id == f.options[i].id
              && p.options[i].text == f.options[i].text
              && p.options[i].votes == Count(f.options[i].votes)
    ensures p.creator.id == f.poll.creatorId
    ensures (f.profile.None? || !Present(f.profile.value.name)) ==> p.creator.name == UnknownUser
  {
    var total := TotalVotes(f.options);
    var options := ToOptions(f.poll.id, f.options, total);
    OptionsKeepTotal(f.poll.id, f.options, total);
    assert forall i :: 0 <= i < |f.options| ==> Count(f.options[i].votes) <= total by {
      forall i | 0 <= i < |f.options| {
        CountAtMostTotal(f.options, i);
      }
    }
    var r := f.poll;
    Poll(r.id, r.title, r.description, r.creatorId, Creator(r, f.profile), r.kind, r.status,
         r.isAnonymous, r.showResults, r.allowMultipleVotes, r.endDate, total, options)
  }

  /** `getPolls`: every fetched poll transformed, in the store's order; [] on any failure. */
  function GetPolls(fetch: Fetch<seq<PollWithRelations>>): (r: seq<Poll>)
    ensures !fetch.Fetched? ==> r == []
    ensures fetch.Fetched? ==> |r| == |fetch.data|
    ensures fetch.Fetched? ==> forall i :: 0 <= i < |r| ==>
              && WellFormedPoll(r[i])
              && r[i].id == fetch.data[i].poll.id
              && r[i].totalVotes == TotalVotes(fetch.data[i].options)
  {
    match fetch
    case Fetched(rows) => seq(|rows|, i requires 0 <= i < |rows| => ToPoll(rows[i]))
    case _ => []
  }

  /** `getPollById`: null on an error, an exception or a missing row. */
  function GetPollById(fetch: Fetch<Option<PollWithRelations>>): (r: Option<Poll>)
    ensures r.Some? <==> fetch.Fetched? && fetch.data.Some?
    ensures r.Some? ==> WellFormedPoll(r.value) && r.value.id == fetch.data.value.poll.id
  {
    match fetch
    case Fetched(Some(row)) => Some(ToPoll(row))
    case _ => None
  }

  /**
   * `getUserPolls`: the same transformation over the rows the store selected
   * with `creator_id = userId`; when the store honours that filter, every
   * poll returned belongs to the user.
   */
  function GetUserPolls(userId: string, fetch: Fetch<seq<PollWithRelations>>): (r: seq<Poll>)
    ensures !fetch.Fetched? ==> r == []
    ensures fetch.Fetched? ==> |r| == |fetch.data| && forall i :: 0 <= i < |r| ==> WellFormedPoll(r[i])
    ensures fetch.Fetched? && (forall i :: 0 <= i < |fetch.data| ==> fetch.data[i].poll.creatorId == userId) ==>
              forall i :: 0 <= i < |r| ==> r[i].creatorId == userId
  {
    GetPolls(fetch)
  }
}
