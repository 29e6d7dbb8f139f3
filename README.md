# A verified model of the alx-polling-app core

This project models, in Dafny, the logic that the polling web application owns on top of its hosted database and identity provider:

- **The poll store** (`lib/db/poll-utils.ts`).
  - The remote tables `polls`, `poll_options` and `votes` are an in-memory `Tables` value: two maps keyed by row id, plus a sequence of vote rows.
  - A `Store` class holds them and updates them in place through `submitVote`, `createPoll`, `updatePoll` and `deletePoll`.
  - Every remote call is answered by an input `Reply`: no error, an error object or a thrown exception. This way every partial-failure path of the source can be taken.
  - Each method is proved equal to a specification function (`VoteSpec`, `CreateSpec`, `UpdateSpec`, `DeleteSpec`), and lemmas state what these promise. Examples: deduplication of votes, "only the target counter moves", the compensating delete, and the three-way option diff.
  - The read-side transformation shared by `getPolls`, `getPollById` and `getUserPolls` is a pure function (`ToPoll`). It computes the vote total, the rounded percentages and the option order.
- **The route guard** (`middleware.ts`): the redirect decision, made from the pathname and whether a session exists.
- **The poll creation wizard** (`app/polls/create/page.tsx`): the step counter, the editable option list, the per-step gate, and the clean-up before submit.
- **The poll list filter** (`app/polls/page.tsx`): the tab filter, then the case-insensitive search.
- **The auth adapter** (`lib/auth/auth-utils.ts`): how the provider's answers become the application's `User` and its results.
- **The auth hook** (`hooks/use-auth.ts`) and **the polls hook** (`hooks/use-polls.ts`): their state fields, driven by events and by the results of the calls they make.
- **The profile page** (`app/profile/page.tsx`): the profile user and the avatar initials.

Modules:

| file | module | source |
|---|---|---|
| `types.dfy` | `Types` | the entities of lib/types/index.ts |
| `rows.dfy` | `Rows` | table rows and call outcomes |
| `seqs.dfy` | `Seqs` | `Array.prototype.filter` and subsequences |
| `strings.dfy` | `Strings` | `trim`, case mapping, `includes`, `split`, `||` |
| `poll_read.dfy` | `PollRead` | the read side of poll-utils |
| `poll_store.dfy` | `PollStore` | the write side of poll-utils and the `Store` class |
| `route_guard.dfy` | `RouteGuard` | middleware |
| `create_wizard.dfy` | `CreateWizard` | the creation page and its `Wizard` class |
| `poll_list.dfy` | `PollList` | the list page's filter |
| `auth_adapter.dfy` | `AuthAdapter` | auth-utils |
| `auth_hook.dfy` | `AuthHook` | use-auth and its `AuthState` class |
| `polls_hook.dfy` | `PollsHook` | use-polls and its `PollsCache` class |
| `profile.dfy` | `Profile` | the profile page and its `ProfilePage` class |

## Model

| member | source | states |
|---|---|---|
| Types.Or | app/polls/create/page.tsx:371 | the result is empty exactly when the value is missing or empty and the fallback is empty; a result other than the fallback is the value itself |
| Strings.TrimEmptyIffBlank | app/polls/create/page.tsx:104-106 | `s.trim() !== ''` holds exactly when `s` has a non-whitespace character |
| Strings.ContainsIffOccurs | app/polls/page.tsx:70-71 | `includes` holds exactly when the part starts at some position of the string |
| Strings.Split | app/profile/page.tsx:70 | at least one part; the first is the text before the first separator; there is a second part exactly when the separator occurs |
| Strings.OrElse | lib/auth/auth-utils.ts:38-42 | `a \|\| b` on strings: `a` unless it is empty, then `b`; empty exactly when both are |
| PollRead.Percentage | lib/db/poll-utils.ts:76 | 0 for a zero total; otherwise the integer nearest to 100·votes/total, with halves rounded up, and at most 100 when votes ≤ total |
| PollRead.PercentageBound | lib/db/poll-utils.ts:76 | the `(200v+t)/(2t)` formula meets the rounding bounds and never exceeds 100 for a share of the total |
| PollRead.CountAtMostTotal | lib/db/poll-utils.ts:43 | every option's counter, a missing one read as 0, is at most the poll's total |
| PollRead.OptionsKeepTotal | lib/db/poll-utils.ts:71-78 | the mapped options' counters add up to the reduce over the rows |
| PollRead.ToPoll | lib/db/poll-utils.ts:41-80 | the read poll is well formed: total = sum of counters, order = index, each percentage the rounded share in 0..100; ids, texts and counters come from the rows; a missing profile or name gives 'Unknown User' |
| PollRead.GetPolls | lib/db/poll-utils.ts:4-85 | [] on an error or exception; otherwise one well-formed poll per fetched row, in order, with the row's id and total |
| PollRead.GetPollById | lib/db/poll-utils.ts:87-167 | a poll exactly when the fetch succeeds with a row, and that poll is well formed |
| PollRead.GetUserPolls | lib/db/poll-utils.ts:546-633 | [] on failure; otherwise well-formed polls, and all belong to the user when the store applied the creator filter |
| PollStore.Bump | lib/db/poll-utils.ts:475-477 | the increment keeps every key and every other row; the target's counter rises by exactly one and nothing else in it changes |
| PollStore.Rejection | lib/db/poll-utils.ts:417-471 | every early return is a failure; a vote that is not rejected has an answered poll lookup on an existing, active poll |
| PollStore.FailedPollLookupChangesNothing | lib/db/poll-utils.ts:417-429 | a failed or empty poll lookup changes no table and returns the store's message, or the fixed message on an exception |
| PollStore.InactivePollRejected | lib/db/poll-utils.ts:431-436 | a vote on a poll that is not active returns 'This poll is no longer active' and changes nothing |
| PollStore.RepeatVoteRejected | lib/db/poll-utils.ts:439-454 | a signed-in user's second vote on a single-vote poll returns 'You have already voted on this poll' and changes nothing |
| PollStore.FailedDuplicateCheckLetsVoteThrough | lib/db/poll-utils.ts:446-447 | when the check for earlier votes errors, the vote is not rejected and does not fail |
| PollStore.AdmittedVoteSucceeds | lib/db/poll-utils.ts:474-536 | a vote past the checks never fails; a warning arises only after an error from the increment procedure |
| PollStore.AuditRowOnlyForSignedInVoter | lib/db/poll-utils.ts:457-471 | a vote row is appended exactly for an admitted, signed-in voter whose insert succeeded; otherwise `votes` is unchanged |
| PollStore.FailedAuditRowStillCounts | lib/db/poll-utils.ts:467-470 | a failed vote-row insert leaves the counters and the result as they would be had it succeeded |
| PollStore.ReadThenWriteIsBump | lib/db/poll-utils.ts:496-501 | the fallback read-then-write of `votes + 1` equals the increment procedure |
| PollStore.CountedChangesOnlyTarget | lib/db/poll-utils.ts:474-532 | the counter step either changes nothing or raises exactly the target by one; it does raise it when the procedure or both fallback steps succeed; a warning means nothing changed |
| PollStore.VoteChangesOnlyTargetCounter | lib/db/poll-utils.ts:408-544 | a vote never changes `polls`, and changes the counters at most by one on the target; an admitted vote with a working procedure on an existing option raises it |
| PollStore.OneVotePerVoterKept | lib/db/poll-utils.ts:439-454 | while the duplicate check is answered, a vote keeps "one vote row per signed-in user per single-vote poll" |
| PollStore.VoteKeepsWellKeyed | lib/db/poll-utils.ts:408-544 | a vote keeps every row stored under its own id |
| PollStore.VoteScenario | lib/db/poll-utils.ts:474-477 | one vote for the first of two fresh options reads back as 1 vote in all, 100 % and 0 % |
| PollStore.NewOptionRows | lib/db/poll-utils.ts:199-204 | one row per text, every row belongs to the poll with an order in `start .. start + count`, ids are distinct when the supplied ids are, and the rows hold 0 votes in total |
| PollStore.Insert | lib/db/poll-utils.ts:206-208 | after the batch insert, every inserted row is stored under its id, the keys are the old ones plus the new ids, and the other rows are unchanged |
| PollStore.InsertedNewRows | lib/db/poll-utils.ts:199-208 | after inserting the new rows, each supplied id holds a row of the poll with its text, 0 votes and order `start + index` |
| PollStore.CreatedPollStored | lib/db/poll-utils.ts:174-204 | a created poll is stored as 'active' with the form's fields; each option is stored with 0 votes and its index as order; old rows and votes are unchanged |
| PollStore.CreateSucceedsIffBothInserts | lib/db/poll-utils.ts:190-223 | `createPoll` succeeds exactly when both inserts succeed |
| PollStore.FailedPollInsertWritesNothing | lib/db/poll-utils.ts:190-196 | a failed poll insert writes nothing and returns the store's message |
| PollStore.FailedOptionsInsertRollsBack | lib/db/poll-utils.ts:210-218 | a failed options insert inserts no option; a successful compensating delete restores the tables and returns the options error; a failed one leaves the poll without options |
| PollStore.NoVotesNoTotal | lib/db/poll-utils.ts:43 | rows that all hold 0 votes have a total of 0 |
| PollStore.CreatedPollReadsBack | lib/db/poll-utils.ts:199-204 | the inserted rows read back as an active poll with 0 votes, with the submitted options in order at 0 % |
| PollStore.OptionDiffPartitions | lib/db/poll-utils.ts:279-296 | new and updated options partition the supplied ones by whether their id is an existing option id; removed = the existing ids minus the ids the supplied options carry; new options keep their order |
| PollStore.TextUpdatesFinish | lib/db/poll-utils.ts:299-310 | without an exception the text-update loop runs to its end, whatever errors it logs |
| PollStore.TextUpdatesKeepKeys | lib/db/poll-utils.ts:299-310 | the text updates add and remove no row and change only texts |
| PollStore.PerOptionFailuresStillSucceed | lib/db/poll-utils.ts:298-343 | once the poll update and the option read succeed, error replies to the per-option writes still end in success |
| PollStore.AddedRowsStored | lib/db/poll-utils.ts:312-338 | each new option is stored with 0 votes and order `existing count + index`; removed ids are gone; other rows remain, with their values |
| PollStore.AddAndRemoveKeepsOthers | lib/db/poll-utils.ts:312-338 | whatever the insert and delete answer, a row neither removed nor newly inserted keeps its value |
| PollStore.LastTextIsLast | lib/db/poll-utils.ts:299-310 | the text chosen for an option is present exactly when some update names it, and is that of the last update naming it |
| PollStore.TextUpdatesWritten | lib/db/poll-utils.ts:299-310 | when every per-option write answers Ok, each named row ends with the last text written to it and every other row is unchanged |
| PollStore.LastTextOfUpdated | lib/db/poll-utils.ts:290-292 | the updated options name only the poll's existing ids, and for those the last text is that of the last supplied option naming it |
| PollStore.UpdatedOptionsRewritten | lib/db/poll-utils.ts:240-310 | over the whole `updatePoll`, with every per-option write answered Ok: each existing option a supplied option names carries the last supplied text; every other row not removed keeps its value; the poll row gets the patch |
| PollStore.NewOptionsFollowExisting | lib/db/poll-utils.ts:313-321 | the same for the whole `updatePoll`: success, new rows ordered after the existing ones, removed rows gone |
| PollStore.OptionsWithout | lib/db/poll-utils.ts:358-361 | the poll has no option ids left, every other poll keeps exactly its option ids, and each remaining row is the unchanged row from before |
| PollStore.DeletedPollLeavesNoRows | lib/db/poll-utils.ts:353-406 | a successful delete removes the poll and every option of it, and every vote on it when the votes delete succeeded; every other row is kept with its value, and every other vote row with its copies, in order |
| PollStore.DeleteSucceedsIff | lib/db/poll-utils.ts:353-406 | `deletePoll` succeeds exactly when the options delete and the poll delete succeed and the votes delete does not throw |
| PollStore.FailedOptionsDeleteChangesNothing | lib/db/poll-utils.ts:363-369 | a failed options delete stops before anything is removed and returns the store's message |
| PollStore.Store.SubmitVote | lib/db/poll-utils.ts:408-544 | the tables and result after the step-by-step calls are those of `VoteSpec`, and rows stay keyed by id |
| PollStore.Store.CountVote | lib/db/poll-utils.ts:474-536 | the counter writes equal `Counted`; polls and votes are untouched |
| PollStore.Store.CreatePoll | lib/db/poll-utils.ts:169-231 | the tables and result are those of `CreateSpec` |
| PollStore.Store.UpdatePoll | lib/db/poll-utils.ts:233-351 | the tables and result are those of `UpdateSpec` |
| PollStore.Store.WriteOptions | lib/db/poll-utils.ts:262-339 | the option rows and result are those of `SyncOptions`; polls and votes are untouched |
| PollStore.Store.WriteAddsAndRemoves | lib/db/poll-utils.ts:312-339 | the option rows and result are those of `AddAndRemove` (insert the new options, then delete the removed ones); polls and votes are untouched and rows stay keyed by their id |
| PollStore.Store.WriteTexts | lib/db/poll-utils.ts:299-310 | the loop's effect is that of `ApplyTextUpdates` (loop invariant); only option texts change |
| PollStore.Store.DeletePoll | lib/db/poll-utils.ts:353-406 | the tables and result are those of `DeleteSpec` |
| RouteGuard.Guard | middleware.ts:13-32 | redirect to login, carrying the pathname, exactly for a protected path without a session; to the dashboard exactly for an auth path with a session; pass through otherwise |
| RouteGuard.PrefixesClash | middleware.ts:14-18 | a path cannot start with two prefixes that differ at a common position |
| RouteGuard.NoPathIsBoth | middleware.ts:14-18 | no path is both an auth route and a protected route |
| RouteGuard.RedirectsNeverCross | middleware.ts:20-30 | an auth route is never sent to login and a protected route never to the dashboard |
| CreateWizard.StepsStayInRange | app/polls/create/page.tsx:83-93 | next and previous keep the step in 1..4, undo each other where they moved, and stay put exactly at the ends |
| CreateWizard.ProgressValues | app/polls/create/page.tsx:53-54 | the progress is 25·step: 25, 50, 75 or 100 |
| CreateWizard.Appended | app/polls/create/page.tsx:60-65 | one empty option at the end; the others unchanged |
| CreateWizard.Removed | app/polls/create/page.tsx:71 | the entry at the index dropped and the rest kept in order; an index out of range changes nothing |
| CreateWizard.Replaced | app/polls/create/page.tsx:76-81 | for an index in range, the sequence update `options[index := value]`; for any other index, the list unchanged |
| CreateWizard.AfterRemove | app/polls/create/page.tsx:67-74 | a list of two options is left as it is, so it never drops below two |
| CreateWizard.RemoveUndoesAdd | app/polls/create/page.tsx:60-74 | removing the option just added gives the list back |
| CreateWizard.ReplaceLaws | app/polls/create/page.tsx:76-81 | writing back the current value changes nothing; the second of two writes wins |
| CreateWizard.FilledIffNotBlank | app/polls/create/page.tsx:106 | an option passes the filter exactly when it is not blank |
| CreateWizard.CanProceedCases | app/polls/create/page.tsx:101-114 | step 1 needs non-blank title and description; step 2 needs two non-blank options; steps 3 and 4 pass; any other step fails |
| CreateWizard.Sanitize | app/polls/create/page.tsx:362-365 | only the options change; they are a subsequence of the old ones, and every non-blank option keeps all its copies while every blank one is dropped (multiset counts) |
| CreateWizard.SubmitRequest | app/polls/create/page.tsx:361-372 | something is sent exactly when two options survive the clean-up; it is the clean form and the user's id, or '1' without one |
| CreateWizard.StepTwoGateMatchesSubmit | app/polls/create/page.tsx:362-369 | the second step's gate passes exactly when submitting would send something |
| CreateWizard.WithField | app/polls/create/page.tsx:56-58 | a field update never touches the options |
| CreateWizard.Wizard.constructor | app/polls/create/page.tsx:34-51 | step 1 and the initial form with four empty options |
| CreateWizard.Wizard.NextStep | app/polls/create/page.tsx:83-87 | the step becomes `Next` of the old one; the form is kept; 1..4 and ≥ 2 options are kept |
| CreateWizard.Wizard.PrevStep | app/polls/create/page.tsx:89-93 | the step becomes `Prev` of the old one; the form is kept; the invariant is kept |
| CreateWizard.Wizard.AddOption | app/polls/create/page.tsx:60-65 | the options become `Appended`; the invariant is kept |
| CreateWizard.Wizard.RemoveOption | app/polls/create/page.tsx:67-74 | the options become `AfterRemove`; at least two remain |
| CreateWizard.Wizard.UpdateOption | app/polls/create/page.tsx:76-81 | the options become `Replaced`; the invariant is kept |
| CreateWizard.Wizard.UpdateField | app/polls/create/page.tsx:56-58 | the form becomes `WithField`; the step is kept |
| PollList.Filtered | app/polls/page.tsx:55-75 | an order-preserving subsequence of the fetched polls that keeps every copy of a poll passing both the tab and the search filter and no other poll (multiset counts) |
| PollList.FilterEffect | app/polls/page.tsx:52-76 | with nothing fetched the shown list is kept; otherwise it is the filtered list |
| PollList.TabCases | app/polls/page.tsx:58-64 | 'active' keeps exactly the active polls, 'ended' the ended ones, 'my-polls' the user's own; any other tab keeps all |
| PollList.MyPollsNeedsUser | app/polls/page.tsx:62-63 | with no user the 'my-polls' tab shows nothing |
| PollList.SearchIgnoresCase | app/polls/page.tsx:67-73 | uppercasing or lowercasing the query does not change the result |
| AuthAdapter.EmailLocalPart | lib/auth/auth-utils.ts:41 | the part before the first '@', with no '@' in it; the whole email when there is no '@'; "" without an email |
| AuthAdapter.DisplayName | lib/auth/auth-utils.ts:38-42 | metadata name, else full name, else the email's local part, else "" |
| AuthAdapter.ToUser | lib/auth/auth-utils.ts:35-46 | the name is empty exactly when the name, the full name and the email's local part all are; without metadata the name is the email's local part and the avatar is "" |
| AuthAdapter.NameFromEmail | lib/auth/auth-utils.ts:41 | without metadata, the name is the text before the '@' |
| AuthAdapter.LoginUser | lib/auth/auth-utils.ts:4-55 | provider error → its message; no user → 'Login failed - no user data'; exception → the fixed message; success exactly with a user, mapped by `ToUser` |
| AuthAdapter.SignUpMetadata | lib/auth/auth-utils.ts:65-70 | the supplied name, "" when missing, is sent as both `name` and `full_name` |
| AuthAdapter.RegisteredUser | lib/auth/auth-utils.ts:100-107 | the supplied name, else the email's local part; avatar ""; email defaulting to "" |
| AuthAdapter.RegisterUser | lib/auth/auth-utils.ts:57-130 | error → its message; no user → 'User registration failed'; exception → the fixed message; success exactly with a user; confirmation needed exactly without a session |
| AuthAdapter.RegisterIgnoresMetadata | lib/auth/auth-utils.ts:100-121 | the result does not depend on the metadata the provider returns |
| AuthAdapter.RegisteredNameSurvivesLogin | lib/auth/auth-utils.ts:65-70 | a name given at sign-up is the name a later session read shows |
| AuthAdapter.LogoutUser | lib/auth/auth-utils.ts:132-157 | success exactly when the provider reports no error; otherwise its message, or the fixed one on an exception |
| AuthAdapter.GetCurrentUser | lib/auth/auth-utils.ts:159-203 | a user exactly when the session read succeeds with a user, mapped by `ToUser` |
| AuthAdapter.AuthenticatedIffCurrentUser | lib/auth/auth-utils.ts:205-227 | `isAuthenticated` holds exactly when `getCurrentUser` would return a user |
| AuthAdapter.LoginAgreesWithSession | lib/auth/auth-utils.ts:187-198 | login and session read build the same user from the same provider user |
| AuthAdapter.TestConnection | lib/auth/auth-utils.ts:230-256 | connected exactly when the session read returns; `hasSession` exactly with a session; error messages otherwise |
| AuthHook.EventEffects | hooks/use-auth.ts:79-98 | SIGNED_OUT clears the user; SIGNED_IN, TOKEN_REFRESHED and USER_UPDATED take the session's user when there is one; other events change nothing |
| AuthHook.FailedConnectionKeepsUser | hooks/use-auth.ts:27-35 | a failed connection test keeps the user |
| AuthHook.LoginEffects | hooks/use-auth.ts:125-132 | a login sets the user exactly when the provider returns one; a failed one keeps the user and names a non-empty error, 'Login failed' for an empty message |
| AuthHook.RegisterEffects | hooks/use-auth.ts:156-166 | a registration with a user sets it and reports whether confirmation is needed; otherwise the user is kept and it fails |
| AuthHook.LogoutEffects | hooks/use-auth.ts:185-192 | success exactly without a provider error; success clears the user, failure keeps it |
| AuthHook.RefreshDiffersFromEvent | hooks/use-auth.ts:207-217 | on a session without a user the event handler keeps the user while `refreshUser` clears it |
| AuthHook.AuthState.constructor | hooks/use-auth.ts:14-16 | no user, loading, not initialized |
| AuthHook.AuthState.HandleAuthEvent | hooks/use-auth.ts:70-104 | the user becomes `EventUser`; loading ends false |
| AuthHook.AuthState.InitializeAuth | hooks/use-auth.ts:22-62 | the user becomes `InitialUser`; it ends initialized and not loading, the early return included |
| AuthHook.AuthState.Login | hooks/use-auth.ts:113-142 | user and result as `LoginEffect`; loading ends false |
| AuthHook.AuthState.Register | hooks/use-auth.ts:144-176 | user and result as `RegisterEffect`; loading ends false |
| AuthHook.AuthState.Logout | hooks/use-auth.ts:178-202 | user and result as `LogoutEffect`; loading ends false |
| AuthHook.AuthState.RefreshUser | hooks/use-auth.ts:204-222 | the user becomes the session's user or none, and that is returned |
| PollsHook.AfterFetch | hooks/use-polls.ts:10-24 | loading ends false; the list is replaced only by an array; an error is set exactly on an exception |
| PollsHook.WithoutPoll | hooks/use-polls.ts:93 | an order-preserving subsequence keeping every copy of each poll with another id and none with that id |
| PollsHook.WithoutPollIdempotent | hooks/use-polls.ts:93 | removing the same poll twice is removing it once |
| PollsHook.DeleteEffects | hooks/use-polls.ts:85-105 | success removes exactly the polls with that id and keeps every other one, with its copies and in order; a failure keeps the list and returns 'Failed to delete poll' |
| PollsHook.CreateEffects | hooks/use-polls.ts:41-61 | success returns the poll id and shows the refreshed list; a failure returns 'Failed to create poll' whatever the underlying error |
| PollsHook.ErrorOnlyOnException | hooks/use-polls.ts:10-120 | every operation ends not loading, and leaves an error exactly when a call threw |
| PollsHook.PollsCache.constructor | hooks/use-polls.ts:6-8 | no polls, loading, no error |
| PollsHook.PollsCache.FetchPolls | hooks/use-polls.ts:10-24 | the state becomes `AfterFetch` of the old one |
| PollsHook.PollsCache.FetchPollById | hooks/use-polls.ts:26-39 | state and result as `FetchByIdEffect` |
| PollsHook.PollsCache.CreateNewPoll | hooks/use-polls.ts:41-61 | state and result as `CreateEffect` |
| PollsHook.PollsCache.UpdateExistingPoll | hooks/use-polls.ts:63-83 | state and result as `UpdateEffect` |
| PollsHook.PollsCache.DeleteExistingPoll | hooks/use-polls.ts:85-105 | state and result as `DeleteEffect` |
| PollsHook.PollsCache.FetchUserPolls | hooks/use-polls.ts:107-120 | state and result as `FetchUserPollsEffect` |
| Profile.ToProfileUser | app/profile/page.tsx:56-64 | id, email and name copied; no polls and no votes |
| Profile.FirstCharText | app/profile/page.tsx:72 | exactly one character when the part is not empty, and then a prefix of the part, so its first character; an empty part gives a text that is not one character long, which `LeadingSpaceInitials` pins down as "undefined" |
| Profile.Take | app/profile/page.tsx:73 | a prefix of length min(n, length) |
| Profile.NoNameKeepsInitials | app/profile/page.tsx:48-75 | without a name the initials stay, 'JD' from the start |
| Profile.TwoWordInitials | app/profile/page.tsx:70-74 | two or more words give the uppercased first letters of the first two; later words do not matter |
| Profile.OneWordInitials | app/profile/page.tsx:71-74 | one word gives its first two characters uppercased, one for a one-letter word |
| Profile.LeadingSpaceInitials | app/profile/page.tsx:72 | a name beginning with a space shows "UNDEFINED" followed by the next word's initial |
| Profile.EffectCases | app/profile/page.tsx:51-77 | a redirect to '/login' exactly when loading has ended with no user; with a user, that user is shown; otherwise nothing changes |
| Profile.ProfilePage.constructor | app/profile/page.tsx:48-49 | initials 'JD' and no user |
| Profile.ProfilePage.OnAuthChange | app/profile/page.tsx:51-77 | initials, user and redirect as `EffectOf` |

## Left out

- Dates and timestamps: `createdAt`, `updatedAt`, `new Date()`, `toISOString` and the end-date display are not modelled. `endDate` is kept as an opaque optional string.
- Logging: `console.*` calls have no effect on the model.
- Concurrency: the model is sequential. It makes no claim about two voters racing on the read-then-write fallback, or about interleaved hook handlers.
- Floating point: `Math.round(v / t * 100)` is modelled in exact integers as `(200v + t) / (2t)`. Binary rounding of the quotient at exact halves is not modelled.
- The backend:
  - The database, the `increment_vote` procedure and the identity provider are foreign code.
  - Each call is an input outcome, and the procedure's effect is `Bump`, with a missing counter counted as 0.
  - Which row `.single()` returns and the store's own error texts are abstracted. The one exception is the no-row error `NoRow`.
- Generated ids: the poll id, the option ids and the vote id are chosen by the store, so they are parameters here.
- PollStore.Store.CreatePoll, PollStore.Store.UpdatePoll: require the generated ids to be fresh and distinct. The source relies on the store to guarantee this rather than checking it.
- PollRead.Creator: the profile is taken as already resolved. The array-versus-object handling of the joined `profiles` value is not modelled in any of the three queries, only the 'Unknown User' default.
- PollRead.GetUserPolls: the `creator_id` filter and the `created_at` ordering are done by the store. The model states ownership only for rows that satisfy the filter.
- `getPolls`'s own rows carry no ordering guarantee in the model. The `order('created_at')` of the queries is the store's.
- Strings: `trim`, `toLowerCase` and `toUpperCase` are modelled on ASCII only.
- The hooks' own `catch` blocks are reached only through exceptions from the adapter functions, which catch their own. The hook models take each callee's outcome, including an exception, as an input.
- app/polls/create/page.tsx:
  - `handleSubmit` is unused and not modelled.
  - The authentication redirect effect (lines 37-41) and the navigation after a submit are page wiring and not modelled.
- app/polls/page.tsx: the data-fetching effect and the rendering are left out. Only the filter effect is modelled.
- AuthHook.AuthState.InitializeAuth: the subscription set-up and clean-up of the auth listener are not modelled.
- Rendering: all JSX, the whole of components/, app/layout.tsx and app/test-auth/page.tsx are outside the model.
- Next.js `config.matcher`: the patterns whose rules decide which requests reach the middleware are not modelled.
- Profile.ProfileUser: omits `avatar_url`, `created_at`, `username` and `bio`. The page does not derive any logic from them.
