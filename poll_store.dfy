/**
 * The write side of lib/db/poll-utils.ts: `submitVote`, `createPoll`,
 * `updatePoll` and `deletePoll` over an in-memory copy of the remote tables.
 *
 * Every remote call is answered by a `Reply` supplied by the caller (no
 * error, an error object, or an exception), so each partial-failure path of
 * the source can be taken. Ids the store generates are parameters too.
 * For each operation a specification function (`VoteSpec`, `CreateSpec`,
 * `UpdateSpec`, `DeleteSpec`) gives the new tables and the result, lemmas
 * state what the source promises about it, and a method of `Store` performs
 * the calls step by step and is proved to agree with it.
 */
module PollStore {
  import opened Types
  import opened Rows
  import opened PollRead
  import Seqs

  const NotActive := "This poll is no longer active"
  const AlreadyVoted := "You have already voted on this poll"
  const Unexpected := "An unexpected error occurred"
  const CountWarning := "Vote recorded but count may not be updated immediately"
  /** The error the store returns when `.single()` finds no row (the store's text, not the repository's). */
  const NoRow := "JSON object requested, multiple (or no) rows returned"

  datatype Tables = Tables(polls: map<string, PollRow>, options: map<string, OptionRow>, votes: seq<VoteRow>)

  /** Rows are keyed by their own id. */
  ghost predicate WellKeyed(t: Tables)
  {
    && (forall k :: k in t.polls ==> t.polls[k].id == k)
    && (forall k :: k in t.options ==> t.options[k].id == k)
  }

  predicate Distinct(ids: seq<string>)
  {
    forall i, j :: 0 <= i < j < |ids| ==> ids[i] != ids[j]
  }

  /** `.eq('id', k).single()`: the row, the call's error, or the store's no-row error. */
  function SingleRow<V>(rows: map<string, V>, k: string, reply: Reply): Fetch<V>
  {
    match reply
    case Thrown => FetchThrown
    case Err(m) => FetchErr(m)
    case Ok => if k in rows then Fetched(rows[k]) else FetchErr(NoRow)
  }

  /** `.update({ votes: n }).eq('id', id)`; no row matches a missing id. */
  function SetVotes(options: map<string, OptionRow>, id: string, n: nat): map<string, OptionRow>
  {
    if id in options then options[id := options[id].(votes := Some(n))] else options
  }

  /**
   * The store-side increment of the `increment_vote` procedure: the target
   * counter rises by one (a missing counter counting as 0), nothing else changes.
   */
  function Bump(options: map<string, OptionRow>, id: string): (r: map<string, OptionRow>)
    ensures r.Keys == options.Keys
    ensures forall k :: k in options && k != id ==> r[k] == options[k]
    ensures id in options ==> Count(r[id].votes) == Count(options[id].votes) + 1
    ensures id in options ==> r[id].(votes := options[id].votes) == options[id]
  {
    if id in options then SetVotes(options, id, Count(options[id].votes) + 1) else options
  }

  /** Some row of `votes` records a vote of `userId` on `pollId`. */
  predicate HasVoted(votes: seq<VoteRow>, pollId: string, userId: string)
  {
    exists i | 0 <= i < |votes| :: votes[i].vote.pollId == pollId && votes[i].vote.userId == Some(userId)
  }

  // ---------------------------------------------------------------------
  // submitVote (lib/db/poll-utils.ts:408-544)
  // ---------------------------------------------------------------------

  /** The answers to the remote calls `submitVote` can make, in source order. */
  datatype VoteReplies = VoteReplies(
    poll: Reply,         // select status, allow_multiple_votes, is_anonymous … single()  (417-421)
    priorVotes: Reply,   // select id from votes where poll_id, user_id                  (440-444)
    record: Reply,       // insert into votes                                            (458-465)
    increment: Reply,    // rpc increment_vote                                           (475-477)
    read: Reply,         // fallback read of the counter after an rpc error              (482-486)
    write: Reply,        // fallback write of the counter after an rpc error             (498-501)
    rescueRead: Reply,   // read of the counter in the catch block                       (515-519)
    rescueWrite: Reply)  // write of the counter in the catch block                      (524-527)

  datatype VoteResult = Voted | VotedWithWarning(warning: string) | VoteFailed(error: string)

  /** The failure `submitVote` returns before writing anything, if it returns one. */
  function Rejection(t: Tables, pollId: string, userId: Option<string>, rs: VoteReplies): (r: Option<VoteResult>)
    ensures r.Some? ==> r.value.VoteFailed?
    ensures r.None? ==> rs.poll.Ok? && pollId in t.polls && t.polls[pollId].status == Active
    ensures r.None? && Present(userId) ==> !rs.record.Thrown?
  {
    match SingleRow(t.polls, pollId, rs.poll)
    case FetchThrown => Some(VoteFailed(Unexpected))
    case FetchErr(m) => Some(VoteFailed(m))
    case Fetched(p) =>
      if p.status != Active then Some(VoteFailed(NotActive))
      else if Present(userId) && !p.allowMultipleVotes && rs.priorVotes.Thrown? then Some(VoteFailed(Unexpected))
      else if Present(userId) && !p.allowMultipleVotes && rs.priorVotes.Ok? && HasVoted(t.votes, pollId, userId.value)
      then Some(VoteFailed(AlreadyVoted))
      else if Present(userId) && rs.record.Thrown? then Some(VoteFailed(Unexpected))
      else None
  }

  /** The audit row a signed-in voter's vote inserts. */
  function AuditRow(t: Tables, pollId: string, optionId: string, userId: Option<string>, voteId: string): VoteRow
    requires pollId in t.polls
  {
    VoteRow(Vote(voteId, pollId, userId, optionId), t.polls[pollId].isAnonymous)
  }

  /** The catch block of lines 511-532: a best-effort read-then-write whose failures are swallowed. */
  function Rescued(options: map<string, OptionRow>, optionId: string, rs: VoteReplies): map<string, OptionRow>
  {
    match SingleRow(options, optionId, rs.rescueRead)
    case Fetched(o) => if rs.rescueWrite.Ok? then SetVotes(options, optionId, Count(o.votes) + 1) else options
    case _ => options
  }

  /** The counter update of lines 474-536 and the result it leads to. */
  function Counted(options: map<string, OptionRow>, optionId: string, rs: VoteReplies): (map<string, OptionRow>, VoteResult)
  {
    match rs.increment
    case Ok => (Bump(options, optionId), Voted)
    case Thrown => (Rescued(options, optionId, rs), Voted)
    case Err(_) =>
      match SingleRow(options, optionId, rs.read)
      case FetchThrown => (Rescued(options, optionId, rs), Voted)
      case FetchErr(_) => (options, VotedWithWarning(CountWarning))
      case Fetched(o) =>
        match rs.write
        case Ok => (SetVotes(options, optionId, Count(o.votes) + 1), Voted)
        case Err(_) => (options, VotedWithWarning(CountWarning))
        case Thrown => (Rescued(options, optionId, rs), Voted)
  }

  /** `submitVote(pollId, optionId, userId)`: the tables afterwards and the result. */
  function VoteSpec(t: Tables, pollId: string, optionId: string, userId: Option<string>, voteId: string, rs: VoteReplies): (Tables, VoteResult)
  {
    var rejected := Rejection(t, pollId, userId, rs);
    if rejected.Some? then (t, rejected.value)
    else
      var votes := if Present(userId) && rs.record.Ok? then t.votes + [AuditRow(t, pollId, optionId, userId, voteId)] else t.votes;
      var counted := Counted(t.options, optionId, rs);
      (Tables(t.polls, counted.0, votes), counted.1)
  }

  /** A lookup that fails, or finds no poll, ends the vote with that error and changes nothing. */
  lemma FailedPollLookupChangesNothing(t: Tables, pollId: string, optionId: string, userId: Option<string>, voteId: string, rs: VoteReplies)
    requires !rs.poll.Ok? || pollId !in t.polls
    ensures VoteSpec(t, pollId, optionId, userId, voteId, rs).0 == t
    ensures rs.poll.Err? ==> VoteSpec(t, pollId, optionId, userId, voteId, rs).1 == VoteFailed(rs.poll.message)
    ensures rs.poll.Ok? ==> VoteSpec(t, pollId, optionId, userId, voteId, rs).1 == VoteFailed(NoRow)
    ensures rs.poll.Thrown? ==> VoteSpec(t, pollId, optionId, userId, voteId, rs).1 == VoteFailed(Unexpected)
  {
  }

  /** A vote on a poll that is not active fails and changes no counter and no vote row. */
  lemma InactivePollRejected(t: Tables, pollId: string, optionId: string, userId: Option<string>, voteId: string, rs: VoteReplies)
    requires rs.poll.Ok? && pollId in t.polls && t.polls[pollId].status != Active
    ensures VoteSpec(t, pollId, optionId, userId, voteId, rs) == (t, VoteFailed(NotActive))
  {
  }

  /** A repeat vote of a signed-in user on a single-vote poll fails and changes nothing. */
  lemma RepeatVoteRejected(t: Tables, pollId: string, optionId: string, userId: Option<string>, voteId: string, rs: VoteReplies)
    requires rs.poll.Ok? && pollId in t.polls && t.polls[pollId].status == Active
    requires Present(userId) && !t.polls[pollId].allowMultipleVotes
    requires rs.priorVotes.Ok? && HasVoted(t.votes, pollId, userId.value)
    ensures VoteSpec(t, pollId, optionId, userId, voteId, rs) == (t, VoteFailed(AlreadyVoted))
  {
  }

  /** When the check for earlier votes itself errors, the vote goes ahead and is reported a success. */
  lemma FailedDuplicateCheckLetsVoteThrough(t: Tables, pollId: string, optionId: string, userId: Option<string>, voteId: string, rs: VoteReplies)
    requires rs.poll.Ok? && pollId in t.polls && t.polls[pollId].status == Active
    requires rs.priorVotes.Err? && !rs.record.Thrown?
    ensures Rejection(t, pollId, userId, rs).None?
    ensures !VoteSpec(t, pollId, optionId, userId, voteId, rs).1.VoteFailed?
  {
  }

  /** Once a vote gets past the checks, it is reported a success even if the counter could not be updated. */
  lemma AdmittedVoteSucceeds(t: Tables, pollId: string, optionId: string, userId: Option<string>, voteId: string, rs: VoteReplies)
    requires Rejection(t, pollId, userId, rs).None?
    ensures !VoteSpec(t, pollId, optionId, userId, voteId, rs).1.VoteFailed?
    ensures VoteSpec(t, pollId, optionId, userId, voteId, rs).1.VotedWithWarning? ==> rs.increment.Err?
  {
  }

  /**
   * A vote row is written only for a signed-in voter, exactly when the
   * vote got past the checks and its insert succeeded; otherwise `votes` is unchanged.
   */
  lemma AuditRowOnlyForSignedInVoter(t: Tables, pollId: string, optionId: string, userId: Option<string>, voteId: string, rs: VoteReplies)
    ensures var t' := VoteSpec(t, pollId, optionId, userId, voteId, rs).0;
      if Rejection(t, pollId, userId, rs).None? && Present(userId) && rs.record.Ok?
      then t'.votes == t.votes + [AuditRow(t, pollId, optionId, userId, voteId)]
      else t'.votes == t.votes
  {
  }

  /** A failed audit insert does not stop the count: the counters end as they would had it succeeded. */
  lemma FailedAuditRowStillCounts(t: Tables, pollId: string, optionId: string, userId: Option<string>, voteId: string, rs: VoteReplies)
    requires rs.record.Err?
    ensures VoteSpec(t, pollId, optionId, userId, voteId, rs).0.options == VoteSpec(t, pollId, optionId, userId, voteId, rs.(record := Ok)).0.options
    ensures VoteSpec(t, pollId, optionId, userId, voteId, rs).1 == VoteSpec(t, pollId, optionId, userId, voteId, rs.(record := Ok)).1
  {
  }

  /** Both ways of writing the counter give the increment when the row is there. */
  lemma ReadThenWriteIsBump(options: map<string, OptionRow>, optionId: string)
    requires optionId in options
    ensures SetVotes(options, optionId, Count(options[optionId].votes) + 1) == Bump(options, optionId)
  {
  }

  /** The counter path changes at most the target option, and then by exactly one. */
  lemma {:induction false} CountedChangesOnlyTarget(options: map<string, OptionRow>, optionId: string, rs: VoteReplies)
    ensures var o' := Counted(options, optionId, rs).0;
      o' == options || (optionId in options && o' == Bump(options, optionId))
    ensures rs.increment.Ok? ==> Counted(options, optionId, rs) == (Bump(options, optionId), Voted)
    ensures rs.increment.Err? && rs.read.Ok? && rs.write.Ok? ==>
      Counted(options, optionId, rs).0 == Bump(options, optionId)
    ensures Counted(options, optionId, rs).1.VotedWithWarning? ==> Counted(options, optionId, rs).0 == options
  {
    if optionId in options {
      ReadThenWriteIsBump(options, optionId);
    }
  }

  /**
   * A vote leaves `polls` alone, and either leaves the counters alone or
   * raises exactly the target's counter by one; with a working increment
   * procedure and an existing option, it does raise it.
   */
  lemma VoteChangesOnlyTargetCounter(t: Tables, pollId: string, optionId: string, userId: Option<string>, voteId: string, rs: VoteReplies)
    ensures var t' := VoteSpec(t, pollId, optionId, userId, voteId, rs).0;
      && t'.polls == t.polls
      && (t'.options == t.options || (optionId in t.options && t'.options == Bump(t.options, optionId)))
    ensures Rejection(t, pollId, userId, rs).None? && rs.increment.Ok? && optionId in t.options ==>
      VoteSpec(t, pollId, optionId, userId, voteId, rs) == (
        Tables(t.polls, Bump(t.options, optionId), VoteSpec(t, pollId, optionId, userId, voteId, rs).0.votes), Voted)
  {
    CountedChangesOnlyTarget(t.options, optionId, rs);
  }

  /** At most one vote row per signed-in user on each poll that allows a single vote. */
  ghost predicate OneVotePerVoter(t: Tables)
  {
    forall i, j :: 0 <= i < j < |t.votes| ==>
      var a := t.votes[i].vote;
      var b := t.votes[j].vote;
      !(a.pollId == b.pollId && a.userId.Some? && a.userId == b.userId &&
        a.pollId in t.polls && !t.polls[a.pollId].allowMultipleVotes)
  }

  /**
   * The one-vote-per-user check keeps `OneVotePerVoter` whenever it gets an
   * answer; only a failed check (which lets the vote through) can break it.
   */
  lemma OneVotePerVoterKept(t: Tables, pollId: string, optionId: string, userId: Option<string>, voteId: string, rs: VoteReplies)
    requires OneVotePerVoter(t)
    requires !rs.priorVotes.Err?
    ensures OneVotePerVoter(VoteSpec(t, pollId, optionId, userId, voteId, rs).0)
  {
    var t' := VoteSpec(t, pollId, optionId, userId, voteId, rs).0;
    if Rejection(t, pollId, userId, rs).None? && Present(userId) && rs.record.Ok? {
      var row := AuditRow(t, pollId, optionId, userId, voteId);
      assert t'.votes == t.votes + [row];
      assert !t.polls[pollId].allowMultipleVotes ==> !HasVoted(t.votes, pollId, userId.value);
      forall i, j | 0 <= i < j < |t'.votes|
        ensures !(t'.votes[i].vote.pollId == t'.votes[j].vote.pollId && t'.votes[i].vote.userId.Some? &&
                  t'.votes[i].vote.userId == t'.votes[j].vote.userId &&
                  t'.votes[i].vote.pollId in t'.polls && !t'.polls[t'.votes[i].vote.pollId].allowMultipleVotes)
      {
        if j == |t.votes| {
          assert t'.votes[i] == t.votes[i];
        } else {
          assert t'.votes[i] == t.votes[i] && t'.votes[j] == t.votes[j];
        }
      }
    }
  }

  /** Rows keyed by their id stay so after a vote. */
  lemma VoteKeepsWellKeyed(t: Tables, pollId: string, optionId: string, userId: Option<string>, voteId: string, rs: VoteReplies)
    requires WellKeyed(t)
    ensures WellKeyed(VoteSpec(t, pollId, optionId, userId, voteId, rs).0)
  {
    CountedChangesOnlyTarget(t.options, optionId, rs);
  }

  /**
   * Two options with no votes; one vote for the first through the
   * increment procedure: the poll then reads 1 vote in all, 100 % and 0 %.
   */
  lemma VoteScenario()
    ensures
      var row := PollRow("p", "T", "D", "u", Single, Active, false, true, false, None);
      var t := Tables(map["p" := row],
                      map["a" := OptionRow("a", "p", "A", Some(0), 0), "b" := OptionRow("b", "p", "B", Some(0), 1)], []);
      var rs := VoteReplies(Ok, Ok, Ok, Ok, Ok, Ok, Ok, Ok);
      var t' := VoteSpec(t, "p", "a", Some("u"), "v", rs).0;
      var read := ToPoll(PollWithRelations(row, [t'.options["a"], t'.options["b"]], None));
      && read.totalVotes == 1
      && read.options[0].votes == 1 && read.options[0].percentage == 100
      && read.options[1].votes == 0 && read.options[1].percentage == 0
  {
    var row := PollRow("p", "T", "D", "u", Single, Active, false, true, false, None);
    var t := Tables(map["p" := row],
                    map["a" := OptionRow("a", "p", "A", Some(0), 0), "b" := OptionRow("b", "p", "B", Some(0), 1)], []);
    var rs := VoteReplies(Ok, Ok, Ok, Ok, Ok, Ok, Ok, Ok);
    assert !HasVoted(t.votes, "p", "u");
    var t' := VoteSpec(t, "p", "a", Some("u"), "v", rs).0;
    assert t'.options["a"].votes == Some(1);
    assert t'.options["b"].votes == Some(0);
    var rows := [t'.options["a"], t'.options["b"]];
    assert rows[..1] == [t'.options["a"]];
    assert rows[..1][..0] == [];
    assert TotalVotes(rows[..1]) == 1;
    assert TotalVotes(rows) == 1;
  }

  // ---------------------------------------------------------------------
  // createPoll (lib/db/poll-utils.ts:169-231)
  // ---------------------------------------------------------------------

  /** The answers to the poll insert, the options insert and the compensating delete. */
  datatype CreateReplies = CreateReplies(poll: Reply, options: Reply, rollback: Reply)

  datatype CreateResult = Created(pollId: string) | CreateFailed(error: string)

  /** The poll row `createPoll` inserts: the form's fields, status 'active'. */
  function NewPollRow(id: string, data: PollFormData, creatorId: string): PollRow
  {
    PollRow(id, data.title, data.description, creatorId, data.kind, Active,
            data.isAnonymous, data.showResults, data.allowMultipleVotes, data.endDate)
  }

  /** Option rows for `texts`: no votes yet, and order `start + index`. */
  function NewOptionRows(pollId: string, texts: seq<string>, ids: seq<string>, start: nat): (rows: seq<OptionRow>)
    requires |ids| >= |texts|
    ensures |rows| == |texts|
    ensures forall i :: 0 <= i < |rows| ==> rows[i].pollId == pollId && start <= rows[i].order < start + |texts|
    ensures Distinct(ids) ==> forall i, j :: 0 <= i < j < |rows| ==> rows[i].id != rows[j].id
    ensures TotalVotes(rows) == 0
  {
    var rows := seq(|texts|, i requires 0 <= i < |texts| => OptionRow(ids[i], pollId, texts[i], Some(0), start + i));
    NoVotesNoTotal(rows);
    rows
  }

  /** The fields of each row `NewOptionRows` builds. */
  lemma NewOptionRowsAt(pollId: string, texts: seq<string>, ids: seq<string>, start: nat)
    requires |ids| >= |texts|
    ensures forall i :: 0 <= i < |texts| ==>
              NewOptionRows(pollId, texts, ids, start)[i] == OptionRow(ids[i], pollId, texts[i], Some(0), start + i)
  {
  }

  /** Each row `NewOptionRows` builds is stored by a batch insert under its id. */
  lemma InsertedNewRows(options: map<string, OptionRow>, pollId: string, texts: seq<string>, ids: seq<string>, start: nat)
    requires |ids| >= |texts| && Distinct(ids)
    ensures var o' := Insert(options, NewOptionRows(pollId, texts, ids, start));
      forall i :: 0 <= i < |texts| ==> ids[i] in o' && o'[ids[i]] == OptionRow(ids[i], pollId, texts[i], Some(0), start + i)
  {
    NewOptionRowsAt(pollId, texts, ids, start);
  }

  /** A batch insert of rows with distinct ids. */
  function Insert(options: map<string, OptionRow>, rows: seq<OptionRow>): (r: map<string, OptionRow>)
    requires forall i, j :: 0 <= i < j < |rows| ==> rows[i].id != rows[j].id
    ensures forall i :: 0 <= i < |rows| ==> rows[i].id in r && r[rows[i].id] == rows[i]
    ensures forall k :: k in r <==> k in options || exists i :: 0 <= i < |rows| && rows[i].id == k
    ensures forall k :: k in options && (forall i :: 0 <= i < |rows| ==> rows[i].id != k) ==> r[k] == options[k]
  {
    options + map i | 0 <= i < |rows| :: rows[i].id := rows[i]
  }

  /** `createPoll(data, userId)`: the tables afterwards and the result. */
  function CreateSpec(t: Tables, data: PollFormData, creatorId: string, pollId: string, optionIds: seq<string>, rs: CreateReplies): (Tables, CreateResult)
    requires |optionIds| == |data.options| && Distinct(optionIds)
  {
    match rs.poll
    case Thrown => (t, CreateFailed(Unexpected))
    case Err(m) => (t, CreateFailed(m))
    case Ok =>
      var withPoll := t.(polls := t.polls[pollId := NewPollRow(pollId, data, creatorId)]);
      match rs.options
      case Ok => (withPoll.(options := Insert(t.options, NewOptionRows(pollId, data.options, optionIds, 0))), Created(pollId))
      case Thrown => (withPoll, CreateFailed(Unexpected))
      case Err(m) =>
        match rs.rollback
        case Ok => (t.(polls := t.polls - {pollId}), CreateFailed(m))
        case Err(_) => (withPoll, CreateFailed(m))
        case Thrown => (withPoll, CreateFailed(Unexpected))
  }

  /**
   * A created poll is stored with status 'active', and each option with no
   * votes and its index as order; nothing else changes.
   */
  lemma CreatedPollStored(t: Tables, data: PollFormData, creatorId: string, pollId: string, optionIds: seq<string>, rs: CreateReplies)
    requires |optionIds| == |data.options| && Distinct(optionIds)
    requires forall i :: 0 <= i < |optionIds| ==> optionIds[i] !in t.options
    ensures var (t', r) := CreateSpec(t, data, creatorId, pollId, optionIds, rs);
      r.Created? ==>
        && r.pollId == pollId
        && t'.polls == t.polls[pollId := NewPollRow(pollId, data, creatorId)]
        && t'.polls[pollId].status == Active
        && t'.votes == t.votes
        && (forall i :: 0 <= i < |data.options| ==>
              optionIds[i] in t'.options && t'.options[optionIds[i]] == OptionRow(optionIds[i], pollId, data.options[i], Some(0), i))
        && (forall k :: k in t.options ==> k in t'.options && t'.options[k] == t.options[k])
  {
    NewOptionRowsAt(pollId, data.options, optionIds, 0);
  }

  /** `createPoll` succeeds exactly when both inserts succeed. */
  lemma CreateSucceedsIffBothInserts(t: Tables, data: PollFormData, creatorId: string, pollId: string, optionIds: seq<string>, rs: CreateReplies)
    requires |optionIds| == |data.options| && Distinct(optionIds)
    ensures CreateSpec(t, data, creatorId, pollId, optionIds, rs).1.Created? <==> rs.poll.Ok? && rs.options.Ok?
  {
  }

  /** A failed poll insert inserts no options and changes nothing. */
  lemma FailedPollInsertWritesNothing(t: Tables, data: PollFormData, creatorId: string, pollId: string, optionIds: seq<string>, rs: CreateReplies)
    requires |optionIds| == |data.options| && Distinct(optionIds)
    requires !rs.poll.Ok?
    ensures CreateSpec(t, data, creatorId, pollId, optionIds, rs).0 == t
    ensures rs.poll.Err? ==> CreateSpec(t, data, creatorId, pollId, optionIds, rs).1 == CreateFailed(rs.poll.message)
  {
  }

  /**
   * A failed options insert reports the store's error and inserts no option;
   * when the compensating delete succeeds the tables are as before, and
   * when it fails the new poll remains, without options.
   */
  lemma FailedOptionsInsertRollsBack(t: Tables, data: PollFormData, creatorId: string, pollId: string, optionIds: seq<string>, rs: CreateReplies)
    requires |optionIds| == |data.options| && Distinct(optionIds)
    requires pollId !in t.polls
    requires rs.poll.Ok? && rs.options.Err?
    ensures var (t', r) := CreateSpec(t, data, creatorId, pollId, optionIds, rs);
      && r.CreateFailed?
      && t'.options == t.options && t'.votes == t.votes
      && (rs.rollback.Ok? ==> t' == t && r == CreateFailed(rs.options.message))
      && (!rs.rollback.Ok? ==> t'.polls == t.polls[pollId := NewPollRow(pollId, data, creatorId)])
  {
    if rs.rollback.Ok? {
      assert t.polls[pollId := NewPollRow(pollId, data, creatorId)] - {pollId} == t.polls;
    }
  }

  /** A counter sum over rows that all hold no votes is 0. */
  lemma {:induction false} NoVotesNoTotal(rows: seq<OptionRow>)
    requires forall i :: 0 <= i < |rows| ==> Count(rows[i].votes) == 0
    ensures TotalVotes(rows) == 0
  {
    if rows != [] {
      NoVotesNoTotal(rows[..|rows| - 1]);
    }
  }

  /**
   * A poll read back with the option rows `createPoll` inserted, in their
   * order, is active, has 0 votes in all, and shows the submitted options in
   * submitted order at 0 %.
   */
  lemma CreatedPollReadsBack(data: PollFormData, creatorId: string, pollId: string, optionIds: seq<string>, profile: Option<ProfileRow>)
    requires |optionIds| == |data.options|
    ensures var p := ToPoll(PollWithRelations(NewPollRow(pollId, data, creatorId), NewOptionRows(pollId, data.options, optionIds, 0), profile));
      && p.status == Active
      && p.totalVotes == 0
      && |p.options| == |data.options|
      && forall i :: 0 <= i < |p.options| ==>
           p.options[i].text == data.options[i] && p.options[i].votes == 0 &&
           p.options[i].percentage == 0 && p.options[i].order == i
  {
    var rows := NewOptionRows(pollId, data.options, optionIds, 0);
    NoVotesNoTotal(rows);
  }

  // ---------------------------------------------------------------------
  // updatePoll (lib/db/poll-utils.ts:233-351)
  // ---------------------------------------------------------------------

  /** A supplied option: a plain string is one without an id. */
  datatype OptionInput = OptionInput(id: Option<string>, text: string)

  /** The partial form `updatePoll` accepts; `None` is a field left out. */
  datatype PollPatch = PollPatch(
    title: Option<string>,
    description: Option<string>,
    kind: Option<PollType>,
    isAnonymous: Option<bool>,
    showResults: Option<bool>,
    allowMultipleVotes: Option<bool>,
    endDate: Option<string>,
    status: Option<PollStatus>,
    options: Option<seq<OptionInput>>)

  /**
   * The answers to the poll update, the read of the existing options, each
   * per-option text update (the j-th answers the j-th updated option), the
   * insert of the new options and the delete of the removed ones.
   */
  datatype UpdateReplies = UpdateReplies(poll: Reply, existing: Reply, textUpdates: seq<Reply>, insert: Reply, delete: Reply)

  datatype MutationResult = Done | Failed(error: string)

  /** The row after `update(updateData)`: strings only when non-empty, flags whenever given. */
  function Patched(row: PollRow, patch: PollPatch): PollRow
  {
    row.(
      title := if Present(patch.title) then patch.title.value else row.title,
      description := if Present(patch.description) then patch.description.value else row.description,
      kind := if patch.kind.Some? then patch.kind.value else row.kind,
      isAnonymous := if patch.isAnonymous.Some? then patch.isAnonymous.value else row.isAnonymous,
      showResults := if patch.showResults.Some? then patch.showResults.value else row.showResults,
      allowMultipleVotes := if patch.allowMultipleVotes.Some? then patch.allowMultipleVotes.value else row.allowMultipleVotes,
      endDate := if Present(patch.endDate) then patch.endDate else row.endDate,
      status := if patch.status.Some? then patch.status.value else row.status)
  }

  /** The ids of the options a poll already has. */
  function OptionIdsOf(options: map<string, OptionRow>, pollId: string): set<string>
  {
    set k | k in options && options[k].pollId == pollId
  }

  /** A supplied option that names an option the poll already has. */
  predicate IsUpdate(o: OptionInput, existing: set<string>)
  {
    o.id.Some? && o.id.value in existing
  }

  function NewOptions(supplied: seq<OptionInput>, existing: set<string>): seq<OptionInput>
  {
    Seqs.Filter(o => !IsUpdate(o, existing), supplied)
  }

  function UpdatedOptions(supplied: seq<OptionInput>, existing: set<string>): seq<OptionInput>
  {
    Seqs.Filter(o => IsUpdate(o, existing), supplied)
  }

  function RemovedIds(supplied: seq<OptionInput>, existing: set<string>): set<string>
  {
    set k | k in existing && forall i :: 0 <= i < |supplied| ==> supplied[i].id != Some(k)
  }

  function Texts(inputs: seq<OptionInput>): seq<string>
  {
    seq(|inputs|, i requires 0 <= i < |inputs| => inputs[i].text)
  }

  /** `.update({ text }).eq('id', id)`. */
  function SetText(options: map<string, OptionRow>, id: string, text: string): map<string, OptionRow>
  {
    if id in options then options[id := options[id].(text := text)] else options
  }

  /**
   * The loop of lines 299-310: each updated option's text is written; an
   * error is logged and skipped, an exception ends the loop (second component true).
   */
  function ApplyTextUpdates(options: map<string, OptionRow>, updates: seq<OptionInput>, replies: seq<Reply>): (map<string, OptionRow>, bool)
    requires |replies| >= |updates|
    decreases |updates|
  {
    if updates == [] then (options, false)
    else
      match replies[0]
      case Thrown => (options, true)
      case Err(_) => ApplyTextUpdates(options, updates[1..], replies[1..])
      case Ok =>
        var next := if updates[0].id.Some? then SetText(options, updates[0].id.value, updates[0].text) else options;
        ApplyTextUpdates(next, updates[1..], replies[1..])
  }

  /** Enough answers and fresh, distinct ids for every supplied option. */
  ghost predicate UpdateInputsFit(t: Tables, patch: PollPatch, newIds: seq<string>, rs: UpdateReplies)
  {
    patch.options.Some? ==>
      && |newIds| >= |patch.options.value|
      && |rs.textUpdates| >= |patch.options.value|
      && Distinct(newIds)
      && forall i :: 0 <= i < |newIds| ==> newIds[i] !in t.options
  }

  /** `updatePoll(id, data)`: the tables afterwards and the result. */
  function UpdateSpec(t: Tables, id: string, patch: PollPatch, newIds: seq<string>, rs: UpdateReplies): (Tables, MutationResult)
    requires UpdateInputsFit(t, patch, newIds, rs)
  {
    match rs.poll
    case Thrown => (t, Failed(Unexpected))
    case Err(m) => (t, Failed(m))
    case Ok =>
      var polls := if id in t.polls then t.polls[id := Patched(t.polls[id], patch)] else t.polls;
      if patch.options.None? || patch.options.value == [] then (t.(polls := polls), Done)
      else
        var synced := SyncOptions(t.options, id, patch.options.value, newIds, rs);
        (t.(polls := polls, options := synced.0), synced.1)
  }

  /** Lines 264-346: the option rows after the supplied list has been written, and the result. */
  function SyncOptions(options: map<string, OptionRow>, id: string, supplied: seq<OptionInput>, newIds: seq<string>, rs: UpdateReplies): (map<string, OptionRow>, MutationResult)
    requires |newIds| >= |supplied| && |rs.textUpdates| >= |supplied| && Distinct(newIds)
  {
    match rs.existing
    case Thrown => (options, Failed(Unexpected))
    case Err(m) => (options, Failed(m))
    case Ok =>
      var existing := OptionIdsOf(options, id);
      var updated := ApplyTextUpdates(options, UpdatedOptions(supplied, existing), rs.textUpdates);
      if updated.1 then (updated.0, Failed(Unexpected))
      else AddAndRemove(updated.0, id, supplied, existing, newIds, rs)
  }

  /** Lines 312-346: the insert of the new options, then the delete of the removed ones. */
  function AddAndRemove(options: map<string, OptionRow>, id: string, supplied: seq<OptionInput>, existing: set<string>, newIds: seq<string>, rs: UpdateReplies): (map<string, OptionRow>, MutationResult)
    requires |newIds| >= |supplied| && Distinct(newIds)
  {
    var added := NewOptions(supplied, existing);
    if added != [] && rs.insert.Thrown? then (options, Failed(Unexpected))
    else
      var withNew := if added != [] && rs.insert.Ok? then Insert(options, NewOptionRows(id, Texts(added), newIds, |existing|)) else options;
      var removed := RemovedIds(supplied, existing);
      if removed != {} && rs.delete.Thrown? then (withNew, Failed(Unexpected))
      else (if removed != {} && rs.delete.Ok? then withNew - removed else withNew, Done)
  }

  /**
   * New and updated options partition the supplied ones: a supplied option
   * is an update exactly when its id is among the poll's option ids, and a
   * removed id is an existing one that no supplied option names.
   */
  lemma OptionDiffPartitions(supplied: seq<OptionInput>, existing: set<string>)
    ensures |NewOptions(supplied, existing)| + |UpdatedOptions(supplied, existing)| == |supplied|
    ensures forall o :: o in UpdatedOptions(supplied, existing) <==> o in supplied && o.id.Some? && o.id.value in existing
    ensures forall o :: o in NewOptions(supplied, existing) <==> o in supplied && (o.id.None? || o.id.value !in existing)
    ensures RemovedIds(supplied, existing) == existing - set i | 0 <= i < |supplied| && supplied[i].id.Some? :: supplied[i].id.value
    ensures Seqs.IsSubsequence(NewOptions(supplied, existing), supplied)
  {
    Seqs.FilterComplement(o => !IsUpdate(o, existing), o => IsUpdate(o, existing), supplied);
    Seqs.FilterIsSubsequence(o => !IsUpdate(o, existing), supplied);
  }

  /** Without an exception among the answers, the loop runs to its end. */
  lemma {:induction false} TextUpdatesFinish(options: map<string, OptionRow>, updates: seq<OptionInput>, replies: seq<Reply>)
    requires |replies| >= |updates|
    requires forall j :: 0 <= j < |updates| ==> !replies[j].Thrown?
    ensures !ApplyTextUpdates(options, updates, replies).1
    decreases |updates|
  {
    if updates != [] {
      var next := if replies[0].Ok? && updates[0].id.Some? then SetText(options, updates[0].id.value, updates[0].text) else options;
      TextUpdatesFinish(next, updates[1..], replies[1..]);
    }
  }

  /** The text updates add and remove no row and change nothing but texts. */
  lemma {:induction false} TextUpdatesKeepKeys(options: map<string, OptionRow>, updates: seq<OptionInput>, replies: seq<Reply>)
    requires |replies| >= |updates|
    ensures ApplyTextUpdates(options, updates, replies).0.Keys == options.Keys
    ensures forall k :: k in options ==>
              ApplyTextUpdates(options, updates, replies).0[k] == options[k].(text := ApplyTextUpdates(options, updates, replies).0[k].text)
    decreases |updates|
  {
    if updates != [] && !replies[0].Thrown? {
      var next := if replies[0].Ok? && updates[0].id.Some? then SetText(options, updates[0].id.value, updates[0].text) else options;
      TextUpdatesKeepKeys(next, updates[1..], replies[1..]);
    }
  }

  /**
   * Once the poll update and the read of the existing options succeed,
   * errors of the per-option writes are only logged: the call reports success.
   */
  lemma PerOptionFailuresStillSucceed(t: Tables, id: string, patch: PollPatch, newIds: seq<string>, rs: UpdateReplies)
    requires UpdateInputsFit(t, patch, newIds, rs)
    requires rs.poll.Ok? && patch.options.Some? && patch.options.value != [] && rs.existing.Ok?
    requires forall j :: 0 <= j < |rs.textUpdates| ==> !rs.textUpdates[j].Thrown?
    requires !rs.insert.Thrown? && !rs.delete.Thrown?
    ensures UpdateSpec(t, id, patch, newIds, rs).1 == Done
  {
    var supplied := patch.options.value;
    var existing := OptionIdsOf(t.options, id);
    TextUpdatesFinish(t.options, UpdatedOptions(supplied, existing), rs.textUpdates);
  }

  /**
   * When insert and delete succeed, each new option is stored with no votes
   * and order `existing count + index`, every removed option is gone and
   * every other row is still there.
   */
  lemma AddedRowsStored(options: map<string, OptionRow>, id: string, supplied: seq<OptionInput>, existing: set<string>, newIds: seq<string>, rs: UpdateReplies)
    requires |newIds| >= |supplied| && Distinct(newIds)
    requires forall i :: 0 <= i < |newIds| ==> newIds[i] !in existing
    requires rs.insert.Ok? && rs.delete.Ok?
    ensures var added := NewOptions(supplied, existing);
      var (o', r) := AddAndRemove(options, id, supplied, existing, newIds, rs);
      && r == Done
      && (forall i :: 0 <= i < |added| ==>
            newIds[i] in o' && o'[newIds[i]] == OptionRow(newIds[i], id, added[i].text, Some(0), |existing| + i))
      && (forall k :: k in RemovedIds(supplied, existing) ==> k !in o')
      && (forall k :: k in options && k !in RemovedIds(supplied, existing) ==> k in o')
      && (forall k :: k in options && k !in RemovedIds(supplied, existing) && k !in newIds ==> o'[k] == options[k])
  {
    var added := NewOptions(supplied, existing);
    var removed := RemovedIds(supplied, existing);
    var texts := Texts(added);
    var withNew := if added != [] then Insert(options, NewOptionRows(id, texts, newIds, |existing|)) else options;
    var o' := if removed != {} then withNew - removed else withNew;
    assert AddAndRemove(options, id, supplied, existing, newIds, rs) == (o', Done);
    if added != [] {
      InsertedNewRows(options, id, texts, newIds, |existing|);
      forall i | 0 <= i < |added|
        ensures newIds[i] in o' && o'[newIds[i]] == OptionRow(newIds[i], id, added[i].text, Some(0), |existing| + i)
      {
        assert newIds[i] !in removed;
        assert texts[i] == added[i].text;
      }
    }
    assert forall k :: k in options && k !in removed ==> k in o';
    AddAndRemoveKeepsOthers(options, id, supplied, existing, newIds, rs);
  }

  /**
   * Whatever the insert and the delete answer, a row that is neither removed
   * nor one of the new ids keeps its value.
   */
  lemma AddAndRemoveKeepsOthers(options: map<string, OptionRow>, id: string, supplied: seq<OptionInput>, existing: set<string>, newIds: seq<string>, rs: UpdateReplies)
    requires |newIds| >= |supplied| && Distinct(newIds)
    ensures var o' := AddAndRemove(options, id, supplied, existing, newIds, rs).0;
      forall k :: k in options && k !in RemovedIds(supplied, existing) && k !in newIds ==> k in o' && o'[k] == options[k]
  {
    var added := NewOptions(supplied, existing);
    if added != [] {
      var rows := NewOptionRows(id, Texts(added), newIds, |existing|);
      assert forall i :: 0 <= i < |rows| ==> rows[i].id == newIds[i];
    }
  }

  /** The text of the last of `updates` that names option `k`, if one does. */
  function LastText(updates: seq<OptionInput>, k: string): Option<string>
    decreases |updates|
  {
    if updates == [] then None
    else
      var later := LastText(updates[1..], k);
      if later.Some? then later else if updates[0].id == Some(k) then Some(updates[0].text) else None
  }

  /** `LastText` finds a text exactly when some update names `k`, and then it is that of the last one naming it. */
  lemma {:induction false} LastTextIsLast(updates: seq<OptionInput>, k: string)
    ensures LastText(updates, k).Some? <==> exists i :: 0 <= i < |updates| && updates[i].id == Some(k)
    ensures LastText(updates, k).Some? ==>
              exists i :: 0 <= i < |updates| && updates[i].id == Some(k) && updates[i].text == LastText(updates, k).value &&
                          forall j :: i < j < |updates| ==> updates[j].id != Some(k)
    decreases |updates|
  {
    if updates != [] {
      var rest := updates[1..];
      LastTextIsLast(rest, k);
      assert forall j :: 0 < j < |updates| ==> updates[j] == rest[j - 1];
      if LastText(rest, k).Some? {
        var i :| 0 <= i < |rest| && rest[i].id == Some(k) && rest[i].text == LastText(rest, k).value &&
                 forall j :: i < j < |rest| ==> rest[j].id != Some(k);
        assert updates[i + 1] == rest[i];
      } else if updates[0].id == Some(k) {
        assert forall j :: 0 < j < |updates| ==> updates[j].id != Some(k);
      } else {
        assert forall j :: 0 <= j < |updates| ==> updates[j].id != Some(k);
      }
    }
  }

  /**
   * When every text update is answered Ok, each row ends with the text of
   * the last update naming it, and a row no update names keeps its value.
   */
  lemma {:induction false} TextUpdatesWritten(options: map<string, OptionRow>, updates: seq<OptionInput>, replies: seq<Reply>)
    requires |replies| >= |updates|
    requires forall j :: 0 <= j < |updates| ==> replies[j].Ok?
    ensures var r := ApplyTextUpdates(options, updates, replies).0;
      forall k :: k in options ==>
        k in r && r[k] == if LastText(updates, k).Some? then options[k].(text := LastText(updates, k).value) else options[k]
    decreases |updates|
  {
    if updates != [] {
      var next := if updates[0].id.Some? then SetText(options, updates[0].id.value, updates[0].text) else options;
      TextUpdatesWritten(next, updates[1..], replies[1..]);
    }
  }

  /** The updated options name only ids of the poll, and for those the last text is the last supplied one. */
  lemma {:induction false} LastTextOfUpdated(supplied: seq<OptionInput>, existing: set<string>, k: string)
    ensures LastText(UpdatedOptions(supplied, existing), k) == if k in existing then LastText(supplied, k) else None
    decreases |supplied|
  {
    if supplied != [] {
      LastTextOfUpdated(supplied[1..], existing, k);
      var u := UpdatedOptions(supplied, existing);
      if IsUpdate(supplied[0], existing) {
        assert u == [supplied[0]] + UpdatedOptions(supplied[1..], existing);
        assert u[1..] == UpdatedOptions(supplied[1..], existing);
      } else {
        assert u == UpdatedOptions(supplied[1..], existing);
      }
    }
  }

  /**
   * The updated part of the diff, over the whole of `updatePoll`: when every
   * per-option write is answered Ok, each option of the poll that a supplied
   * option names ends with the text of the last supplied option naming it;
   * every other row that is not removed keeps its value; the poll row gets the patch.
   */
  lemma UpdatedOptionsRewritten(t: Tables, id: string, patch: PollPatch, newIds: seq<string>, rs: UpdateReplies)
    requires UpdateInputsFit(t, patch, newIds, rs)
    requires rs.poll.Ok? && patch.options.Some? && patch.options.value != [] && rs.existing.Ok?
    requires forall j :: 0 <= j < |rs.textUpdates| ==> rs.textUpdates[j].Ok?
    ensures var supplied := patch.options.value;
      var existing := OptionIdsOf(t.options, id);
      var t' := UpdateSpec(t, id, patch, newIds, rs).0;
      && (id in t.polls ==> t'.polls == t.polls[id := Patched(t.polls[id], patch)])
      && (forall k :: k in t.options && k !in RemovedIds(supplied, existing) ==>
            && k in t'.options
            && t'.options[k] == if k in existing && LastText(supplied, k).Some?
                                then t.options[k].(text := LastText(supplied, k).value)
                                else t.options[k])
  {
    var supplied := patch.options.value;
    var existing := OptionIdsOf(t.options, id);
    var updates := UpdatedOptions(supplied, existing);
    TextUpdatesFinish(t.options, updates, rs.textUpdates);
    TextUpdatesWritten(t.options, updates, rs.textUpdates);
    var mid := ApplyTextUpdates(t.options, updates, rs.textUpdates).0;
    AddAndRemoveKeepsOthers(mid, id, supplied, existing, newIds, rs);
    forall k | k in t.options
      ensures LastText(updates, k) == if k in existing then LastText(supplied, k) else None
    {
      LastTextOfUpdated(supplied, existing, k);
    }
  }

  /** The same for the whole of `updatePoll`: each new option follows the existing ones. */
  lemma NewOptionsFollowExisting(t: Tables, id: string, patch: PollPatch, newIds: seq<string>, rs: UpdateReplies)
    requires UpdateInputsFit(t, patch, newIds, rs)
    requires rs.poll.Ok? && patch.options.Some? && patch.options.value != [] && rs.existing.Ok?
    requires forall j :: 0 <= j < |rs.textUpdates| ==> !rs.textUpdates[j].Thrown?
    requires rs.insert.Ok? && rs.delete.Ok?
    ensures var supplied := patch.options.value;
      var existing := OptionIdsOf(t.options, id);
      var added := NewOptions(supplied, existing);
      var (t', r) := UpdateSpec(t, id, patch, newIds, rs);
      && r == Done
      && (forall i :: 0 <= i < |added| ==>
            newIds[i] in t'.options &&
            t'.options[newIds[i]] == OptionRow(newIds[i], id, added[i].text, Some(0), |existing| + i))
      && (forall k :: k in RemovedIds(supplied, existing) ==> k !in t'.options)
  {
    var supplied := patch.options.value;
    var existing := OptionIdsOf(t.options, id);
    var updates := UpdatedOptions(supplied, existing);
    TextUpdatesFinish(t.options, updates, rs.textUpdates);
    AddedRowsStored(ApplyTextUpdates(t.options, updates, rs.textUpdates).0, id, supplied, existing, newIds, rs);
  }

  // ---------------------------------------------------------------------
  // deletePoll (lib/db/poll-utils.ts:353-406)
  // ---------------------------------------------------------------------

  /** The answers to the deletes of the options, the votes and the poll, in that order. */
  datatype DeleteReplies = DeleteReplies(options: Reply, votes: Reply, poll: Reply)

  /** `poll_options.delete().eq('poll_id', pollId)`. */
  function OptionsWithout(options: map<string, OptionRow>, pollId: string): (r: map<string, OptionRow>)
    ensures OptionIdsOf(r, pollId) == {}
    ensures forall q :: q != pollId ==> OptionIdsOf(r, q) == OptionIdsOf(options, q)
    ensures forall k :: k in r ==> k in options && r[k] == options[k]
  {
    map k | k in options && options[k].pollId != pollId :: options[k]
  }

  /** `votes.delete().eq('poll_id', pollId)`. */
  function VotesWithout(votes: seq<VoteRow>, pollId: string): seq<VoteRow>
  {
    Seqs.Filter((v: VoteRow) => v.vote.pollId != pollId, votes)
  }

  /** `deletePoll(id)`: the tables afterwards and the result. */
  function DeleteSpec(t: Tables, id: string, rs: DeleteReplies): (Tables, MutationResult)
  {
    match rs.options
    case Thrown => (t, Failed(Unexpected))
    case Err(m) => (t, Failed(m))
    case Ok =>
      var t1 := t.(options := OptionsWithout(t.options, id));
      if rs.votes.Thrown? then (t1, Failed(Unexpected))
      else
        var t2 := if rs.votes.Ok? then t1.(votes := VotesWithout(t.votes, id)) else t1;
        match rs.poll
        case Thrown => (t2, Failed(Unexpected))
        case Err(m) => (t2, Failed(m))
        case Ok => (t2.(polls := t.polls - {id}), Done)
  }

  /**
   * A successful delete removes the poll, every option of it and (when the
   * votes delete succeeded) every vote on it, and keeps everything else in order.
   */
  lemma DeletedPollLeavesNoRows(t: Tables, id: string, rs: DeleteReplies)
    ensures var (t', r) := DeleteSpec(t, id, rs);
      r == Done ==>
        && t'.polls == t.polls - {id}
        && (forall k :: k in t'.options <==> k in t.options && t.options[k].pollId != id)
        && (forall k :: k in t'.options ==> t'.options[k] == t.options[k])
        && (rs.votes.Ok? ==>
              && (forall v :: v in t'.votes <==> v in t.votes && v.vote.pollId != id)
              && (forall v :: multiset(t'.votes)[v] == if v.vote.pollId != id then multiset(t.votes)[v] else 0)
              && Seqs.IsSubsequence(t'.votes, t.votes))
  {
    var keep := (v: VoteRow) => v.vote.pollId != id;
    Seqs.FilterIsSubsequence(keep, t.votes);
    if rs.options.Ok? && rs.votes.Ok? && rs.poll.Ok? {
      assert DeleteSpec(t, id, rs).0.votes == Seqs.Filter(keep, t.votes);
    }
  }

  /** `deletePoll` reports success exactly when the options delete and the poll delete succeed. */
  lemma DeleteSucceedsIff(t: Tables, id: string, rs: DeleteReplies)
    ensures DeleteSpec(t, id, rs).1 == Done <==> rs.options.Ok? && !rs.votes.Thrown? && rs.poll.Ok?
  {
  }

  /** A failed options delete stops `deletePoll` before anything is removed. */
  lemma FailedOptionsDeleteChangesNothing(t: Tables, id: string, rs: DeleteReplies)
    requires !rs.options.Ok?
    ensures DeleteSpec(t, id, rs).0 == t
    ensures rs.options.Err? ==> DeleteSpec(t, id, rs).1 == Failed(rs.options.message)
  {
  }

  // ---------------------------------------------------------------------
  // The store
  // ---------------------------------------------------------------------

  /** The remote tables, updated in place by the four operations. */
  class Store {
    var polls: map<string, PollRow>
    var options: map<string, OptionRow>
    var votes: seq<VoteRow>

    function State(): Tables
      reads this
    {
      Tables(polls, options, votes)
    }

    /** Rows stay keyed by their own id: an invariant every operation preserves. */
    ghost predicate Valid()
      reads this
    {
      WellKeyed(State())
    }

    constructor (initial: Tables)
      requires WellKeyed(initial)
      ensures Valid() && State() == initial
    {
      polls, options, votes := initial.polls, initial.options, initial.votes;
    }

    /** lib/db/poll-utils.ts:408-544. */
    method SubmitVote(pollId: string, optionId: string, userId: Option<string>, voteId: string, rs: VoteReplies) returns (r: VoteResult)
      requires Valid()
      modifies this
      ensures Valid()
      ensures (State(), r) == VoteSpec(old(State()), pollId, optionId, userId, voteId, rs)
    {
      VoteKeepsWellKeyed(State(), pollId, optionId, userId, voteId, rs);
      var pollFetch := SingleRow(polls, pollId, rs.poll);
      if pollFetch.FetchThrown? {
        return VoteFailed(Unexpected);
      }
      if pollFetch.FetchErr? {
        return VoteFailed(pollFetch.message);
      }
      var poll := pollFetch.data;
      if poll.status != Active {
        return VoteFailed(NotActive);
      }
      if Present(userId) && !poll.allowMultipleVotes {
        if rs.priorVotes.Thrown? {
          return VoteFailed(Unexpected);
        }
        // an error of the check itself is logged and the vote goes ahead
        if rs.priorVotes.Ok? && HasVoted(votes, pollId, userId.value) {
          return VoteFailed(AlreadyVoted);
        }
      }
      if Present(userId) {
        if rs.record.Thrown? {
          return VoteFailed(Unexpected);
        }
        // an error of the insert is logged and the count goes ahead
        if rs.record.Ok? {
          votes := votes + [VoteRow(Vote(voteId, pollId, userId, optionId), poll.isAnonymous)];
        }
      }
      r := CountVote(optionId, rs);
    }

    /** lib/db/poll-utils.ts:474-536: the counter update once the vote is admitted. */
    method CountVote(optionId: string, rs: VoteReplies) returns (r: VoteResult)
      modifies this
      ensures polls == old(polls) && votes == old(votes)
      ensures (options, r) == Counted(old(options), optionId, rs)
    {
      var rescue := false;
      match rs.increment {
        case Ok =>
          if optionId in options {
            options := options[optionId := options[optionId].(votes := Some(Count(options[optionId].votes) + 1))];
          }
        case Thrown =>
          rescue := true;
        case Err(_) =>
          var current := SingleRow(options, optionId, rs.read);
          match current {
            case FetchErr(_) =>
              return VotedWithWarning(CountWarning);
            case FetchThrown =>
              rescue := true;
            case Fetched(row) =>
              match rs.write {
                case Ok =>
                  options := SetVotes(options, optionId, Count(row.votes) + 1);
                case Err(_) =>
                  return VotedWithWarning(CountWarning);
                case Thrown =>
                  rescue := true;
              }
          }
      }
      if rescue {
        var again := SingleRow(options, optionId, rs.rescueRead);
        if again.Fetched? && rs.rescueWrite.Ok? {
          options := SetVotes(options, optionId, Count(again.data.votes) + 1);
        }
      }
      return Voted;
    }

    /** lib/db/poll-utils.ts:169-231. */
    method CreatePoll(data: PollFormData, creatorId: string, pollId: string, optionIds: seq<string>, rs: CreateReplies) returns (r: CreateResult)
      requires Valid()
      requires pollId !in polls
      requires |optionIds| == |data.options| && Distinct(optionIds)
      requires forall i :: 0 <= i < |optionIds| ==> optionIds[i] !in options
      modifies this
      ensures Valid()
      ensures (State(), r) == CreateSpec(old(State()), data, creatorId, pollId, optionIds, rs)
    {
      if rs.poll.Thrown? {
        return CreateFailed(Unexpected);
      }
      if rs.poll.Err? {
        return CreateFailed(rs.poll.message);
      }
      polls := polls[pollId := NewPollRow(pollId, data, creatorId)];
      var rows := NewOptionRows(pollId, data.options, optionIds, 0);
      match rs.options {
        case Thrown =>
          return CreateFailed(Unexpected);
        case Ok =>
          options := Insert(options, rows);
          return Created(pollId);
        case Err(m) =>
          match rs.rollback {
            case Thrown =>
              return CreateFailed(Unexpected);
            case Err(_) =>
              return CreateFailed(m);
            case Ok =>
              polls := polls - {pollId};
              assert polls == old(polls) - {pollId};
              return CreateFailed(m);
          }
      }
    }

    /** lib/db/poll-utils.ts:233-351. */
    method UpdatePoll(id: string, patch: PollPatch, newIds: seq<string>, rs: UpdateReplies) returns (r: MutationResult)
      requires Valid()
      requires UpdateInputsFit(State(), patch, newIds, rs)
      modifies this
      ensures Valid()
      ensures (State(), r) == UpdateSpec(old(State()), id, patch, newIds, rs)
    {
      if rs.poll.Thrown? {
        return Failed(Unexpected);
      }
      if rs.poll.Err? {
        return Failed(rs.poll.message);
      }
      if id in polls {
        polls := polls[id := Patched(polls[id], patch)];
      }
      if patch.options.None? || patch.options.value == [] {
        return Done;
      }
      r := WriteOptions(id, patch.options.value, newIds, rs);
    }

    /** lib/db/poll-utils.ts:264-346: the option rows for the supplied list. */
    method WriteOptions(id: string, supplied: seq<OptionInput>, newIds: seq<string>, rs: UpdateReplies) returns (r: MutationResult)
      requires |newIds| >= |supplied| && |rs.textUpdates| >= |supplied| && Distinct(newIds)
      requires forall k :: k in options ==> options[k].id == k
      modifies this
      ensures polls == old(polls) && votes == old(votes)
      ensures forall k :: k in options ==> options[k].id == k
      ensures (options, r) == SyncOptions(old(options), id, supplied, newIds, rs)
    {
      if rs.existing.Thrown? {
        return Failed(Unexpected);
      }
      if rs.existing.Err? {
        return Failed(rs.existing.message);
      }
      var existing := OptionIdsOf(options, id);
      var threw := WriteTexts(UpdatedOptions(supplied, existing), rs.textUpdates);
      if threw {
        return Failed(Unexpected);
      }
      r := WriteAddsAndRemoves(id, supplied, existing, newIds, rs);
    }

    /** lib/db/poll-utils.ts:312-346: insert the new options, then delete the removed ones. */
    method WriteAddsAndRemoves(id: string, supplied: seq<OptionInput>, existing: set<string>, newIds: seq<string>, rs: UpdateReplies) returns (r: MutationResult)
      requires |newIds| >= |supplied| && Distinct(newIds)
      requires forall k :: k in options ==> options[k].id == k
      modifies this
      ensures polls == old(polls) && votes == old(votes)
      ensures forall k :: k in options ==> options[k].id == k
      ensures (options, r) == AddAndRemove(old(options), id, supplied, existing, newIds, rs)
    {
      var added := NewOptions(supplied, existing);
      if added != [] {
        match rs.insert {
          case Thrown =>
            return Failed(Unexpected);
          case Err(_) =>
            // the failed insert is logged
          case Ok =>
            options := Insert(options, NewOptionRows(id, Texts(added), newIds, |existing|));
        }
      }
      var removed := RemovedIds(supplied, existing);
      if removed != {} {
        match rs.delete {
          case Thrown =>
            return Failed(Unexpected);
          case Err(_) =>
            // the failed delete is logged
          case Ok =>
            options := options - removed;
        }
      }
      return Done;
    }

    /** lib/db/poll-utils.ts:299-310: one text update per updated option, in order. */
    method WriteTexts(updates: seq<OptionInput>, replies: seq<Reply>) returns (threw: bool)
      requires |replies| >= |updates|
      requires forall k :: k in options ==> options[k].id == k
      modifies this
      ensures polls == old(polls) && votes == old(votes)
      ensures forall k :: k in options ==> options[k].id == k
      ensures (options, threw) == ApplyTextUpdates(old(options), updates, replies)
    {
      var j := 0;
      while j < |updates|
        invariant 0 <= j <= |updates|
        invariant ApplyTextUpdates(old(options), updates, replies) == ApplyTextUpdates(options, updates[j..], replies[j..])
        invariant forall k :: k in options ==> options[k].id == k
        invariant polls == old(polls) && votes == old(votes)
      {
        assert updates[j..][1..] == updates[j + 1..] && replies[j..][1..] == replies[j + 1..];
        if replies[j].Thrown? {
          return true;
        }
        if replies[j].Ok? && updates[j].id.Some? {
          options := SetText(options, updates[j].id.value, updates[j].text);
        }
        j := j + 1;
      }
      assert updates[j..] == [];
      return false;
    }

    /** lib/db/poll-utils.ts:353-406. */
    method DeletePoll(id: string, rs: DeleteReplies) returns (r: MutationResult)
      requires Valid()
      modifies this
      ensures Valid()
      ensures (State(), r) == DeleteSpec(old(State()), id, rs)
    {
      match rs.options {
        case Thrown =>
          return Failed(Unexpected);
        case Err(m) =>
          return Failed(m);
        case Ok =>
          options := OptionsWithout(options, id);
      }
      match rs.votes {
        case Thrown =>
          return Failed(Unexpected);
        case Err(_) =>
          // the failed delete is logged and the poll is deleted anyway
        case Ok =>
          votes := VotesWithout(votes, id);
      }
      match rs.poll {
        case Thrown =>
          return Failed(Unexpected);
        case Err(m) =>
          return Failed(m);
        case Ok =>
          polls := polls - {id};
          return Done;
      }
    }
  }
}
