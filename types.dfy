/**
 * The application's entities (lib/types/index.ts) as value types.
 * Timestamps (createdAt, updatedAt) are not modelled.
 */
module Types {

  datatype Option<+T> = None | Some(value: T)

  /** `s || ""` on an optional string: an absent value reads as the empty string. */
  function Text(o: Option<string>): string
  {
    if o.Some? then o.value else ""
  }

  /** JavaScript truthiness of an optional string: present and not empty. */
  predicate Present(o: Option<string>)
  {
    o.Some? && o.value != ""
  }

  /** `o || fallback` for an optional string: the fallback replaces a missing or empty one. */
  function Or(o: Option<string>, fallback: string): (r: string)
    ensures r == "" <==> !Present(o) && fallback == ""
    ensures r != fallback ==> o == Some(r)
  {
    if Present(o) then o.value else fallback
  }

  datatype PollType = Single | Multiple | Ranking

  datatype PollStatus = Draft | Active | Ended

  datatype User = User(id: string, email: string, name: string, avatar: Option<string>)

  datatype PollOption = PollOption(
    id: string,
    pollId: string,
    text: string,
    votes: nat,
    percentage: nat,
    order: nat)

  datatype Poll = Poll(
    id: string,
    title: string,
    description: string,
    creatorId: string,
    creator: User,
    kind: PollType,
    status: PollStatus,
    isAnonymous: bool,
    showResults: bool,
    allowMultipleVotes: bool,
    endDate: Option<string>,
    totalVotes: nat,
    options: seq<PollOption>)

  datatype Vote = Vote(id: string, pollId: string, userId: Option<string>, optionId: string)

  datatype PollFormData = PollFormData(
    title: string,
    description: string,
    kind: PollType,
    endDate: Option<string>,
    isAnonymous: bool,
    showResults: bool,
    allowMultipleVotes: bool,
    options: seq<string>)

  /** The credentials and optional display name of the login and registration forms. */
  datatype AuthFormData = AuthFormData(email: string, password: string, name: Option<string>)
}
