/**
 * The rows of the remote tables `polls`, `poll_options`, `votes` and
 * `profiles` that lib/db/poll-utils.ts reads and writes, and the shape of
 * the answer to one remote call.
 */
module Rows {
  import opened Types

  datatype PollRow = PollRow(
    id: string,
    title: string,
    description: string,
    creatorId: string,
    kind: PollType,
    status: PollStatus,
    isAnonymous: bool,
    showResults: bool,
    allowMultipleVotes: bool,
    endDate: Option<string>)

  /** `votes` is a nullable column. */
  datatype OptionRow = OptionRow(id: string, pollId: string, text: string, votes: Option<nat>, order: int)

  /** A row of `votes`: the vote and its `anonymous` column. */
  datatype VoteRow = VoteRow(vote: Vote, anonymous: bool)

  datatype ProfileRow = ProfileRow(name: Option<string>, email: Option<string>, avatarUrl: Option<string>)

  /** `votes || 0`: a missing counter reads as 0. */
  function Count(votes: Option<nat>): nat
  {
    if votes.Some? then votes.value else 0
  }

  /**
   * How one write or one check against the store came back: no error, an
   * error object the client library returned, or an exception it threw.
   */
  datatype Reply = Ok | Err(message: string) | Thrown

  /** How one read came back: the data, an error the store returned, or an exception. */
  datatype Fetch<T> = Fetched(data: T) | FetchErr(message: string) | FetchThrown
}
