/**
 * hooks/use-polls.ts: the hook's list of polls and its `loading` and
 * `error` state. What each lib/db/poll-utils.ts call returns, or whether it
 * throws, is an input; the hook's own work is how that lands in its state.
 */
module PollsHook {
  import opened Types
  import opened PollStore
  import Seqs

  /** How `getPolls()` came back: an array, some other value, or an exception. */
  datatype ListReply = PollArray(polls: seq<Poll>) | NotAnArray | ListThrew

  /** How a call came back: its value, or an exception. */
  datatype Call<T> = Returned(value: T) | Threw

  /** What `createNewPoll`, `updateExistingPoll` and `deleteExistingPoll` return. */
  datatype HookReply = Succeeded(pollId: Option<string>) | FailedWith(error: string)

  datatype PollsState = PollsState(polls: seq<Poll>, loading: bool, error: Option<string>)

  const FetchPollsFailed := "Failed to fetch polls"
  const FetchPollFailed := "Failed to fetch poll"
  const CreatePollFailed := "Failed to create poll"
  const UpdatePollFailed := "Failed to update poll"
  const DeletePollFailed := "Failed to delete poll"
  const FetchUserPollsFailed := "Failed to fetch user polls"

  /** `fetchPolls`, lines 10-24. */
  function AfterFetch(s: PollsState, reply: ListReply): (r: PollsState)
    ensures !r.loading
    ensures r.error.Some? <==> reply.ListThrew?
    ensures reply.PollArray? ==> r.polls == reply.polls
    ensures !reply.PollArray? ==> r.polls == s.polls
  {
    match reply
    case PollArray(ps) => PollsState(ps, false, None)
    case NotAnArray => PollsState(s.polls, false, None)
    case ListThrew => PollsState(s.polls, false, Some(FetchPollsFailed))
  }

  /** `fetchPollById`, lines 26-39. */
  function FetchByIdEffect(s: PollsState, reply: Call<Option<Poll>>): (PollsState, Option<Poll>)
  {
    match reply
    case Returned(p) => (s.(loading := false, error := None), p)
    case Threw => (s.(loading := false, error := Some(FetchPollFailed)), None)
  }

  /** `createNewPoll`, lines 41-61: a success refreshes the list through `fetchPolls`. */
  function CreateEffect(s: PollsState, reply: Call<CreateResult>, refresh: ListReply): (PollsState, HookReply)
  {
    match reply
    case Returned(Created(id)) => (AfterFetch(s, refresh), Succeeded(Some(id)))
    case Returned(CreateFailed(_)) => (s.(loading := false, error := None), FailedWith(CreatePollFailed))
    case Threw => (s.(loading := false, error := Some(CreatePollFailed)), FailedWith(CreatePollFailed))
  }

  /** `updateExistingPoll`, lines 63-83. */
  function UpdateEffect(s: PollsState, reply: Call<MutationResult>, refresh: ListReply): (PollsState, HookReply)
  {
    match reply
    case Returned(Done) => (AfterFetch(s, refresh), Succeeded(None))
    case Returned(Failed(_)) => (s.(loading := false, error := None), FailedWith(UpdatePollFailed))
    case Threw => (s.(loading := false, error := Some(UpdatePollFailed)), FailedWith(UpdatePollFailed))
  }

  /** `prev.filter(poll => poll.id !== id)`. */
  function WithoutPoll(polls: seq<Poll>, id: string): (r: seq<Poll>)
    ensures Seqs.IsSubsequence(r, polls)
    ensures forall p :: p in r <==> p in polls && p.id != id
    ensures forall p :: multiset(r)[p] == if p.id != id then multiset(polls)[p] else 0
  {
    Seqs.FilterIsSubsequence((p: Poll) => p.id != id, polls);
    Seqs.Filter((p: Poll) => p.id != id, polls)
  }

  /** Removing a poll a second time changes nothing. */
  lemma WithoutPollIdempotent(polls: seq<Poll>, id: string)
    ensures WithoutPoll(WithoutPoll(polls, id), id) == WithoutPoll(polls, id)
  {
    var once := WithoutPoll(polls, id);
    assert forall i :: 0 <= i < |once| ==> once[i] in once;
    Seqs.FilterKeepsAll((p: Poll) => p.id != id, once);
  }

  /** `deleteExistingPoll`, lines 85-105. */
  function DeleteEffect(s: PollsState, id: string, reply: Call<MutationResult>): (PollsState, HookReply)
  {
    match reply
    case Returned(Done) => (PollsState(WithoutPoll(s.polls, id), false, None), Succeeded(None))
    case Returned(Failed(_)) => (s.(loading := false, error := None), FailedWith(DeletePollFailed))
    case Threw => (s.(loading := false, error := Some(DeletePollFailed)), FailedWith(DeletePollFailed))
  }

  /** `fetchUserPolls`, lines 107-120. */
  function FetchUserPollsEffect(s: PollsState, reply: Call<seq<Poll>>): (PollsState, seq<Poll>)
  {
    match reply
    case Returned(ps) => (s.(loading := false, error := None), ps)
    case Threw => (s.(loading := false, error := Some(FetchUserPollsFailed)), [])
  }

  /**
   * A successful delete removes exactly the polls with that id and keeps the
   * others in order; a reported failure leaves the list as it was.
   */
  lemma DeleteEffects(s: PollsState, id: string, reply: Call<MutationResult>)
    ensures reply == Returned(Done) ==>
              var ps := DeleteEffect(s, id, reply).0.polls;
              && Seqs.IsSubsequence(ps, s.polls)
              && (forall p :: p in ps <==> p in s.polls && p.id != id)
              && (forall p :: multiset(ps)[p] == if p.id != id then multiset(s.polls)[p] else 0)
    ensures reply != Returned(Done) ==>
              DeleteEffect(s, id, reply).0.polls == s.polls && DeleteEffect(s, id, reply).1 == FailedWith(DeletePollFailed)
  {
  }

  /** A successful create hands back the store's poll id and shows the refreshed list. */
  lemma CreateEffects(s: PollsState, id: string, refresh: ListReply, m: string, m': string)
    ensures CreateEffect(s, Returned(Created(id)), refresh).1 == Succeeded(Some(id))
    ensures refresh.PollArray? ==> CreateEffect(s, Returned(Created(id)), refresh).0.polls == refresh.polls
    ensures CreateEffect(s, Returned(CreateFailed(m)), refresh) == CreateEffect(s, Returned(CreateFailed(m')), refresh)
    ensures CreateEffect(s, Returned(CreateFailed(m)), refresh).1 == FailedWith(CreatePollFailed)
  {
  }

  /**
   * Every operation ends not loading, and leaves an error behind only when
   * a call threw, never when one returned a failure.
   */
  lemma ErrorOnlyOnException(s: PollsState, list: ListReply, byId: Call<Option<Poll>>, created: Call<CreateResult>,
                             updated: Call<MutationResult>, deleted: Call<MutationResult>, mine: Call<seq<Poll>>, id: string)
    ensures var r := AfterFetch(s, list); !r.loading && (r.error.Some? <==> list.ListThrew?)
    ensures var r := FetchByIdEffect(s, byId).0; !r.loading && (r.error.Some? <==> byId.Threw?)
    ensures var r := CreateEffect(s, created, list).0;
      !r.loading && (r.error.Some? <==> created.Threw? || (created.Returned? && created.value.Created? && list.ListThrew?))
    ensures var r := UpdateEffect(s, updated, list).0;
      !r.loading && (r.error.Some? <==> updated.Threw? || (updated == Returned(Done) && list.ListThrew?))
    ensures var r := DeleteEffect(s, id, deleted).0; !r.loading && (r.error.Some? <==> deleted.Threw?)
    ensures var r := FetchUserPollsEffect(s, mine).0; !r.loading && (r.error.Some? <==> mine.Threw?)
  {
  }

  /** The hook's state. */
  class PollsCache {
    var polls: seq<Poll>
    var loading: bool
    var error: Option<string>

    function State(): PollsState
      reads this
    {
      PollsState(polls, loading, error)
    }

    /** Lines 6-8. */
    constructor ()
      ensures State() == PollsState([], true, None)
    {
      polls, loading, error := [], true, None;
    }

    method FetchPolls(reply: ListReply)
      modifies this
      ensures State() == AfterFetch(old(State()), reply)
    {
      loading := true;
      error := None;
      match reply {
        case PollArray(ps) =>
          polls := ps;
        case NotAnArray =>
        case ListThrew =>
          error := Some(FetchPollsFailed);
      }
      loading := false;
    }

    method FetchPollById(reply: Call<Option<Poll>>) returns (r: Option<Poll>)
      modifies this
      ensures (State(), r) == FetchByIdEffect(old(State()), reply)
    {
      loading := true;
      error := None;
      if reply.Returned? {
        r := reply.value;
      } else {
        error := Some(FetchPollFailed);
        r := None;
      }
      loading := false;
    }

    method CreateNewPoll(reply: Call<CreateResult>, refresh: ListReply) returns (r: HookReply)
      modifies this
      ensures (State(), r) == CreateEffect(old(State()), reply, refresh)
    {
      loading := true;
      error := None;
      match reply {
        case Returned(Created(id)) =>
          FetchPolls(refresh);
          r := Succeeded(Some(id));
        case Returned(CreateFailed(_)) =>
          r := FailedWith(CreatePollFailed);
        case Threw =>
          error := Some(CreatePollFailed);
          r := FailedWith(CreatePollFailed);
      }
      loading := false;
    }

    method UpdateExistingPoll(reply: Call<MutationResult>, refresh: ListReply) returns (r: HookReply)
      modifies this
      ensures (State(), r) == UpdateEffect(old(State()), reply, refresh)
    {
      loading := true;
      error := None;
      match reply {
        case Returned(Done) =>
          FetchPolls(refresh);
          r := Succeeded(None);
        case Returned(Failed(_)) =>
          r := FailedWith(UpdatePollFailed);
        case Threw =>
          error := Some(UpdatePollFailed);
          r := FailedWith(UpdatePollFailed);
      }
      loading := false;
    }

    method DeleteExistingPoll(id: string, reply: Call<MutationResult>) returns (r: HookReply)
      modifies this
      ensures (State(), r) == DeleteEffect(old(State()), id, reply)
    {
      loading := true;
      error := None;
      match reply {
        case Returned(Done) =>
          polls := WithoutPoll(polls, id);
          r := Succeeded(None);
        case Returned(Failed(_)) =>
          r := FailedWith(DeletePollFailed);
        case Threw =>
          error := Some(DeletePollFailed);
          r := FailedWith(DeletePollFailed);
      }
      loading := false;
    }

    method FetchUserPolls(reply: Call<seq<Poll>>) returns (r: seq<Poll>)
      modifies this
      ensures (State(), r) == FetchUserPollsEffect(old(State()), reply)
    {
      loading := true;
      error := None;
      if reply.Returned? {
        r := reply.value;
      } else {
        error := Some(FetchUserPollsFailed);
        r := [];
      }
      loading := false;
    }
  }
}
