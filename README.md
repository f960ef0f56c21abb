# Remote retro client state layer, in Dafny

This project models the client-side Redux state of the remote retro tool.
Participants share one retrospective session. Each client keeps an ordered
list of ideas and a map of users by id. Both are changed only by action
records that go through one dispatch path. The edits a user makes are pushed
on the retro channel, and the actions dispatched later depend on the
channel's reply.

Modules:

- `Json` (json.dfy): the JavaScript values the state holds. `Record` is a
  plain object, `map<string, Value>`. Object spread `{ ...a, ...b }` is
  `Merge`, a right-biased map union.
- `Actions` (actions.dfy): one `Action` datatype for the whole store, with
  the type strings of the source. `Unhandled(t)` stands for every other
  type; `WellTyped` keeps its `t` off the eleven type strings that have a
  constructor of their own, so that the
  type string decides the case as the reducers' `switch` does. It also defines the channel reply
  (`Ok` / `Error` / `NoReply`) and a pushed message.
- `Ideas` (ideas.dfy): the ideas reducer, its action creators, and the
  actions each idea thunk dispatches for a given reply.
- `UsersById` (users_by_id.dfy): the usersById reducer and the selectors
  `getUserById`, `getUserPresences` and the token join of
  `getCurrentUserPresence`. It also covers the `updateUserAsync` push and the
  actions it dispatches. This slice's implementation file is not part of this
  model, so the module is built from what `test/redux/users_by_id_test.js`
  asserts. Where a function has to decide something the tests leave open,
  the model makes a choice, and "## Left out" names each one.
- `Store` (store.dfy): a class whose fields are the two slices plus a log of
  dispatched actions and a log of channel pushes. `Dispatch` runs both
  reducers. The thunks are methods that push once, dispatch, and take the
  channel's reply as an input. Each method's `ensures` equates the new logs
  and slices with the trace functions of `Ideas` and `UsersById`.
- `Examples` (worked_examples.dfy): cases of the usersById
  tests and small idea scenarios, stated as concrete lemmas.

The three idea thunks `submitIdea`, `submitIdeaEditAsync` and
`submitIdeaDeletionAsync` register only an `"error"` handler
(web/static/js/redux/ideas.js:32, 45, 56). So an ok reply dispatches
nothing. `updateUserAsync` is different: it settles on both replies.
`Ideas.ThunksRejectOnlyOnError` and `UsersById.UpdateUserSettlesOnce` state
the two behaviours.

## Model

| member | source | states |
|---|---|---|
| Json.Merge | web/static/js/redux/ideas.js:76 | spread merge: the keys of both objects; the override's value wins on every key it has; base values are kept on all other keys |
| Json.Omit | test/redux/users_by_id_test.js:55 | dropping one field removes exactly that key and keeps every other value |
| Actions.NamedTypeIffConstructor | web/static/js/redux/ideas.js:1-8 | for a well-typed action, its type string is one of those with a constructor of their own exactly when the action is not `Unhandled` |
| Actions.TypeDecidesCase | web/static/js/redux/ideas.js:69 | two well-typed actions with the same type string have the same constructor, so switching on `action.type` selects the case |
| Ideas.Reduce | web/static/js/redux/ideas.js:69-86 | an action without a case returns the list unchanged; a submission adds one idea; an update or a rejected deletion keeps the length; a deletion never grows the list |
| Ideas.Reducer | web/static/js/redux/ideas.js:68 | an undefined prior state is reduced as the empty list for every action, so a well-typed action without a case gives `[]`; a defined state is reduced as is |
| Ideas.EditTrace | web/static/js/redux/ideas.js:28-36 | at most one action, present exactly on an error reply, and it is IDEA_UPDATE_REJECTED |
| Ideas.SubmissionTrace | web/static/js/redux/ideas.js:52-60 | at most one action, present exactly on an error reply, and it is IDEA_SUBMISSION_REJECTED |
| Ideas.DeletionTrace | web/static/js/redux/ideas.js:38-50 | first the IDEA_UPDATE_COMMITTED of `{ deletionSubmitted: true }` for the id; then, on an error reply only, IDEA_DELETION_REJECTED for the same id |
| Ideas.UpdateIdea | web/static/js/redux/ideas.js:10-14 | builds an IDEA_UPDATE_COMMITTED action carrying the given id and attributes |
| Ideas.AddIdea | web/static/js/redux/ideas.js:23-26 | builds an IDEA_SUBMISSION_COMMITTED action carrying the idea |
| Ideas.DeleteIdea | web/static/js/redux/ideas.js:62-65 | builds an IDEA_DELETION_COMMITTED action carrying the id |
| Ideas.DeletionRejected | web/static/js/redux/ideas.js:16-19 | builds an IDEA_DELETION_REJECTED action carrying the id |
| Ideas.MapMatching | web/static/js/redux/ideas.js:75-77 | the id-guarded map keeps the length; at each position it applies the update to an idea whose id matches and leaves any other idea unchanged |
| Ideas.RemoveMatching | web/static/js/redux/ideas.js:79 | the filter never grows the list; an idea is in the result iff it is in the input and its id differs |
| Ideas.UnhandledIsIdentity | web/static/js/redux/ideas.js:84-85 | an action without a case returns the given list, or the empty list when there is no prior state |
| Ideas.RejectionsOfSubmitAndEditAreUnhandled | web/static/js/redux/ideas.js:69-86 | IDEA_SUBMISSION_REJECTED and IDEA_UPDATE_REJECTED have no case in the reducer |
| Ideas.BootstrapReplaces | web/static/js/redux/ideas.js:70-71 | SET_INITIAL_STATE returns the snapshot's ideas whatever the prior list, so applying it twice is applying it once |
| Ideas.SubmissionAppends | web/static/js/redux/ideas.js:72-73 | a committed submission adds one idea; the old list is a prefix and the new idea is last |
| Ideas.UpdateMergesMatching | web/static/js/redux/ideas.js:74-77 | a committed update keeps length and order and leaves other ideas unchanged; a matching idea gets the union of keys, the new values on updated keys and the old values elsewhere |
| Ideas.DeletionRemovesExactly | web/static/js/redux/ideas.js:78-79 | a committed deletion keeps exactly the ideas whose id differs; no idea with that id remains |
| Ideas.RemoveMatchingConcat | web/static/js/redux/ideas.js:79 | the filter distributes over concatenation, so the kept ideas stay in their original order |
| Ideas.RemoveMatchingNoop | web/static/js/redux/ideas.js:79 | the filter returns a list with no matching idea unchanged |
| Ideas.DeletionIdempotent | web/static/js/redux/ideas.js:78-79 | a second committed deletion of the same id changes nothing |
| Ideas.DeletionRejectedResetsFlag | web/static/js/redux/ideas.js:80-83 | a rejected deletion keeps length, order and ids; a matching idea gets `deletionSubmitted` false with all other fields intact; other ideas are unchanged |
| Ideas.ReduceAllConcat | web/static/js/redux/ideas.js:68-87 | reducing two batches of actions in turn equals reducing their concatenation; `Store.Store.Dispatch` uses it to keep the ideas slice equal to the fold of the dispatch log |
| Ideas.ThunksRejectOnlyOnError | web/static/js/redux/ideas.js:28-60 | each idea thunk dispatches exactly one rejection on an error reply and none otherwise; edit and submit dispatch nothing else; deletion first dispatches the `deletionSubmitted: true` update |
| Ideas.SubmitAndEditTracesKeepIdeas | web/static/js/redux/ideas.js:28-60 | what the submit and edit thunks dispatch leaves the ideas list unchanged for every reply |
| Ideas.DeletionRejectionUndoesPending | web/static/js/redux/ideas.js:38-50 | the optimistic flag followed by the rejection reduces to the rejection alone |
| Ideas.DeletionRejectionRestores | web/static/js/redux/ideas.js:38-50 | after a rejected deletion the idea is still listed, with `deletionSubmitted` false and its other fields as before; other ideas are unchanged |
| Ideas.DeletionPendingWithoutError | web/static/js/redux/ideas.js:38-50 | without an error reply the idea stays listed and flagged `deletionSubmitted` true; other fields and other ideas are unchanged |
| UsersById.KeyById | test/redux/users_by_id_test.js:151-167 | keying users by id: the keys are exactly the users' ids; each key maps to a full user that carries that id; a user with no later namesake id is the entry for its id |
| UsersById.JoinedUsers | test/redux/users_by_id_test.js:215-240 | the joined users are `joins[token].user`, in join order, each with an integer id |
| UsersById.Reduce | test/redux/users_by_id_test.js:126-300 | an action without a case returns the map unchanged; SET_PRESENCES and SYNC_PRESENCE_DIFF never drop a key; USER_UPDATE_COMMITTED keeps the key set |
| UsersById.Reducer | test/redux/users_by_id_test.js:127-167 | an undefined prior state is reduced as the empty map for every action (SET_INITIAL_STATE on it included), so a well-typed action without a case gives `{}`; a defined state is reduced as is |
| UsersById.UnhandledIsIdentity | test/redux/users_by_id_test.js:127-148 | an unhandled or missing action type returns the given state, or the empty map when there is none |
| UsersById.BootstrapKeysUsersById | test/redux/users_by_id_test.js:151-167 | SET_INITIAL_STATE builds a map whose keys are exactly the users' ids, each holding that full user; applying it twice is applying it once |
| UsersById.SetPresencesInserts | test/redux/users_by_id_test.js:170-212 | SET_PRESENCES files each presence under its id, replacing an entry with that id; keys are the old keys plus the presences' ids; other entries are kept |
| UsersById.SyncJoinsInsert | test/redux/users_by_id_test.js:215-240 | after SYNC_PRESENCE_DIFF the keys are the old keys plus the ids of the joined users; the last join with an id gives that id's entry; entries no join touches are kept |
| UsersById.UpdateCommittedMerges | test/redux/users_by_id_test.js:242-297 | USER_UPDATE_COMMITTED keeps the key set; the entry with the update's id becomes old merged with the update (update fields win, ephemeral fields kept); all other ids are unchanged |
| UsersById.ReducePreservesWellKeyed | test/redux/users_by_id_test.js:150-298 | every reducer case keeps each user filed under its own id |
| UsersById.GetUserById | test/redux/users_by_id_test.js:13-31 | returns a user exactly when the id is a key, and then the whole record filed under it; on a well-keyed map that record carries the id |
| UsersById.PresenceWithUser | test/redux/users_by_id_test.js:55-69 | the joined entry always has `is_facilitator`, true exactly when the user's id is the facilitator id, and has `user_id` only if the user record does |
| UsersById.PresenceWithUserFields | test/redux/users_by_id_test.js:55-69 | the joined entry has the presence's keys without `user_id`, plus the user's keys, plus `is_facilitator`; user fields win; `is_facilitator` says whether the user's id is the facilitator id |
| UsersById.GetUserPresences | test/redux/users_by_id_test.js:34-70 | one joined entry per presence, in presence order, each joined with that presence's user |
| UsersById.PresenceEntriesCarryFacilitatorFlag | test/redux/users_by_id_test.js:55-69 | on a well-keyed map each entry has its presence's user id, `is_facilitator` equal to (that id == facilitator_id), and every user field; `user_id` is gone |
| UsersById.FindToken | test/redux/users_by_id_test.js:82-86 | finds the first presence holding the token, or reports that none does |
| UsersById.CurrentUserPresence | test/redux/users_by_id_test.js:93-101 | empty iff no presence holds the token; otherwise the joined entry of a presence holding it |
| UsersById.UserEditPayload | test/redux/users_by_id_test.js:324-327 | the pushed `{ id, ...params }` has exactly the keys `id` and the params' keys |
| UsersById.UserEditPayloadCarriesParams | test/redux/users_by_id_test.js:324-327 | the pushed `{ id, ...params }` carries every param and, unless a param overrides it, the id |
| UsersById.UpdateUserTrace | test/redux/users_by_id_test.js:329-355 | no action without a reply, else one: USER_UPDATE_COMMITTED carrying the server's response on ok, USER_UPDATE_REJECTED on error |
| UsersById.UpdateUserSettlesOnce | test/redux/users_by_id_test.js:329-355 | an answered push dispatches exactly one action and an unanswered one none; ok commits the server's payload; error dispatches USER_UPDATE_REJECTED |
| UsersById.UpdateUserOkMerges | test/redux/users_by_id_test.js:329-343 | the committed server record, reduced, merges into the entry with its id and keeps the key set |
| Store.Store.Dispatch | web/static/js/redux/ideas.js:68-87 | dispatch reduces both slices and appends the action to the log; it keeps users filed by id and the ideas slice equal to the reducer folded over the whole log |
| Store.Store.ChannelPush | web/static/js/redux/ideas.js:30 | a push appends exactly one message to the channel log |
| Store.Store.SubmitIdeaEditAsync | web/static/js/redux/ideas.js:28-36 | pushes `idea_edited` with the params once; dispatches IDEA_UPDATE_REJECTED only on an error reply; leaves both slices unchanged |
| Store.Store.SubmitIdeaDeletionAsync | web/static/js/redux/ideas.js:38-50 | pushes `idea_deleted` with the id once; dispatches the optimistic flag and then, on an error reply only, the rejection; the ideas slice is those actions reduced over the old list |
| Store.Store.SubmitIdea | web/static/js/redux/ideas.js:52-60 | pushes `idea_submitted` with the idea once; dispatches IDEA_SUBMISSION_REJECTED only on an error reply; leaves both slices unchanged |
| Store.Store.UpdateUserAsync | test/redux/users_by_id_test.js:302-357 | pushes `user_edited` with `{ id, ...params }` once; commits the server's record on ok, rejects on error, dispatches nothing without a reply |
| Examples.GetUserByIdExample | test/redux/users_by_id_test.js:13-31 | getUserById on the three-user state with id 1 gives `{ id: 1, name: "Betty White" }` |
| Examples.BootstrapExample | test/redux/users_by_id_test.js:151-167 | Timmy (5) and Hilary (3) are filed under their ids |
| Examples.SetPresencesExample | test/redux/users_by_id_test.js:191-212 | Kevin is added and Travis (7) becomes Blurg Man |
| Examples.SyncPresenceDiffExample | test/redux/users_by_id_test.js:215-240 | joins ABC and XYZ add Kevin (60) and Sarah (61) and keep Travis (5) |
| Examples.UpdatePreservesEphemeralExample | test/redux/users_by_id_test.js:267-297 | the update adds name, email_opt_in and nonsense and keeps ephemeralAttribute |
| Examples.TwoFieldPresenceEntry | test/redux/users_by_id_test.js:55-69 | a presence with two own fields and a `user_id`, joined with an id-and-name user, is exactly those two fields, the id, the name and the facilitator flag, without `user_id` |
| Examples.BettyWhiteEntry | test/redux/users_by_id_test.js:55-69 | Betty White's joined entry is flagged as facilitator and has no user_id |
| Examples.EstelleGettyEntry | test/redux/users_by_id_test.js:55-69 | Estelle Getty's joined entry is not flagged as facilitator and has no user_id |
| Examples.EstelleGettyTokenEntry | test/redux/users_by_id_test.js:93-101 | the joined entry for token hErOboy keeps the token and is flagged as facilitator |
| Examples.TwoPresenceEntries | test/redux/users_by_id_test.js:34-69 | on a state with two resolving presences, getUserPresences is exactly their two joined entries, in presence order |
| Examples.GetUserPresencesExample | test/redux/users_by_id_test.js:34-69 | getUserPresences on the fixture state gives Betty White's entry (facilitator) and then Estelle Getty's (not facilitator), each without `user_id` |
| Examples.CurrentUserPresenceExample | test/redux/users_by_id_test.js:93-101 | the current user's presence for token hErOboy is Estelle Getty's joined entry |
| Examples.SubmissionExample | web/static/js/redux/ideas.js:72-73 | a committed submission on no prior state gives the one-idea list |
| Examples.DeletionRejectedExample | web/static/js/redux/ideas.js:74-83 | the optimistic update sets `deletionSubmitted` true; the full rejected-deletion trace gives back the original idea |

## Left out

- Store.Store.SubmitIdeaDeletionAsync: pushes and dispatches go to two separate logs, so the model does not state that the `idea_deleted` push (web/static/js/redux/ideas.js:40) comes before the optimistic dispatch (web/static/js/redux/ideas.js:43); it states the order within each log only. The same holds for the other thunks.
- The presence synchronizer of web/static/js/components/remote_retro.js is not part of this model. It hands `presence_state` and `presence_diff` to the Phoenix library's `Presence.syncState`/`syncDiff`, which is not visible here. The rest of that file is React state and channel join plumbing.
- The presence diff's `leaves`: nothing visible fixes how the usersById slice treats them (the only diff test has empty leaves), so `SyncPresenceDiff` carries joins only.
- The memoization of `getCurrentUserPresence`: returning the cached object by reference identity after the token disappears depends on an unseen memoization library, on object identity and on the global `window.userToken`. `UsersById.CurrentUserPresence` is the pure join, with the token as a parameter.
- The "returns a thunk" test (typeof check) and the channel's asynchrony. Each thunk runs to completion with its reply as an input. Actions that other events dispatch between the push and the reply are not interleaved, and a missing reply is `NoReply`.
- The React components and their tests (idea submission form, remote retro rendering): UI behaviour, not state logic.
- Values: JavaScript `===` compares objects by reference. The model compares them structurally, which matters only if an id were an object. JavaScript `undefined` and non-integer numbers are not modelled: `Value` has neither. So an update or deletion whose `ideaId` is `undefined`, which `===` would match against every idea without an `id` (web/static/js/redux/ideas.js:76, 79, 82), has no counterpart; `HasId` never matches an idea that lacks `id`.
- UsersById.Reduce: requires every user record in an action to carry an integer `id`, because the tests only use such records and say nothing about others. The same holds for `UsersById.Reducer`, `Store.Store.Dispatch`, and for the ok reply of `Store.Store.UpdateUserAsync`. USER_UPDATE_REJECTED has no case in the model's reducer, so it leaves the map unchanged; the tests only check that it is dispatched (test/redux/users_by_id_test.js:353) and never reduce it. `Store.Store.UpdateUserAsync` relies on this choice when it promises an unchanged users slice after an error reply.
- UsersById.BootstrapKeysUsersById: SET_INITIAL_STATE replaces whatever users map is already there, so entries whose ids are not among the bootstrap users are dropped. The only bootstrap test starts from an undefined state (test/redux/users_by_id_test.js:163), so the tests do not decide this; the choice follows the ideas reducer, which replaces its list (web/static/js/redux/ideas.js:70-71).
- UsersById.UserEditPayload: a param named `id` overrides the user id in the pushed `{ id, ...params }`, as spread order gives. The test params never contain `id` (test/redux/users_by_id_test.js:305-327).
- UsersById.UpdateUserSettlesOnce: "exactly one action per answered push" is the model's choice. The tests match the dispatched action with `calledWithMatch` (test/redux/users_by_id_test.js:336, 353), which does not count calls. The same holds for `UsersById.UpdateUserTrace`.
- UsersById.UnhandledIsIdentity: the state is a map from integer ids to records, so the test's prior state `{ id: 1 }` (not a user map) has no counterpart. The lemma states the same identity for every user map.
- UsersById.KeyById: the tests never repeat an id. The model keeps the later user for a repeated id, and the contract states the entry only for the last user with each id.
- UsersById.SyncJoinsInsert: the only test joins ids not yet on the state. For a joined id already on the state the model replaces the whole entry, so fields the join lacks (ephemeral attributes) are dropped; the tests do not decide between replacing and merging.
- UsersById.SetPresencesInserts: the tests cannot tell replacing an entry from merging into it, since both records have the same fields. The model replaces.
- UsersById.UpdateCommittedMerges: the tests always update an id on the state. For an id not on the state the model changes nothing; the tests leave this open.
- UsersById.PresenceWithUser: when a presence field and a user field share a name, the tests do not say which wins. The model lets the user's field win, and `is_facilitator` wins over both.
- UsersById.GetUserPresences: a presence whose `user_id` is not an id on the state is excluded by a precondition (`AllResolve`); the tests always resolve every presence. The same precondition is on `UsersById.CurrentUserPresence`.
- UsersById.CurrentUserPresence: with several presences holding the token, the model takes the first. The test has one.
