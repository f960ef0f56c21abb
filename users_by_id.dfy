/**
 * The usersById slice of the client store (a map from user id to user record),
 * its selectors over the whole state, and the actions the user-edit thunk
 * dispatches. Only what the slice's test file asserts is modelled.
 */
module UsersById {
  import opened Wrappers
  import opened Json
  import opened Actions

  /** The slice: user records filed under their integer ids. */
  type UserMap = map<int, Record>

  /** Every record is filed under its own id. */
  ghost predicate WellKeyed(m: UserMap)
  {
    forall k :: k in m ==> HasIntId(m[k]) && IntId(m[k]) == k
  }

  predicate AllHaveIds(users: seq<Record>)
  {
    forall i :: 0 <= i < |users| ==> HasIntId(users[i])
  }

  function Ids(users: seq<Record>): set<int>
    requires AllHaveIds(users)
  {
    set i | 0 <= i < |users| :: IntId(users[i])
  }

  /** No later user in `users` shares the id of `users[i]`. */
  predicate LastWithId(users: seq<Record>, i: int)
    requires AllHaveIds(users) && 0 <= i < |users|
  {
    forall j :: i < j < |users| ==> IntId(users[j]) != IntId(users[i])
  }

  /**
   * The users keyed by id: the keys are exactly their ids, each key maps to a
   * full user record carrying that id, and where ids repeat the later user is
   * the one kept.
   */
  function KeyById(users: seq<Record>): (m: UserMap)
    requires AllHaveIds(users)
    ensures m.Keys == Ids(users)
    ensures WellKeyed(m)
    ensures forall k :: k in m ==> m[k] in users
    ensures forall i :: 0 <= i < |users| && LastWithId(users, i) ==> m[IntId(users[i])] == users[i]
    decreases |users|
  {
    if users == [] then map[]
    else
      AllHaveIdsPrefix(users);
      var m := KeyById(users[..|users| - 1]);
      KeyByIdStep(users, m);
      m[IntId(users[|users| - 1]) := users[|users| - 1]]
  }

  lemma AllHaveIdsPrefix(users: seq<Record>)
    requires AllHaveIds(users) && users != []
    ensures AllHaveIds(users[..|users| - 1])
  {
    var init := users[..|users| - 1];
    forall i | 0 <= i < |init| ensures HasIntId(init[i]) { assert init[i] == users[i]; }
  }

  /** The ids of a list are the ids of all but its last user, plus the last user's id. */
  lemma IdsSnoc(users: seq<Record>)
    requires AllHaveIds(users) && users != []
    ensures AllHaveIds(users[..|users| - 1])
    ensures Ids(users) == Ids(users[..|users| - 1]) + {IntId(users[|users| - 1])}
  {
    AllHaveIdsPrefix(users);
    var init := users[..|users| - 1];
    forall k | k in Ids(users) ensures k in Ids(init) + {IntId(users[|users| - 1])} {
      var i :| 0 <= i < |users| && IntId(users[i]) == k;
      if i < |users| - 1 { assert init[i] == users[i]; }
    }
    forall k | k in Ids(init) ensures k in Ids(users) {
      var i :| 0 <= i < |init| && IntId(init[i]) == k;
      assert users[i] == init[i];
    }
  }

  /** Filing the last user over the map of the others gives the map of all. */
  lemma KeyByIdStep(users: seq<Record>, m: UserMap)
    requires AllHaveIds(users) && users != []
    requires AllHaveIds(users[..|users| - 1])
    requires m.Keys == Ids(users[..|users| - 1])
    requires WellKeyed(m)
    requires forall k :: k in m ==> m[k] in users[..|users| - 1]
    requires forall i :: 0 <= i < |users| - 1 && LastWithId(users[..|users| - 1], i) ==>
               m[IntId(users[i])] == users[i]
    ensures var r := m[IntId(users[|users| - 1]) := users[|users| - 1]];
      && r.Keys == Ids(users)
      && WellKeyed(r)
      && (forall k :: k in r ==> r[k] in users)
      && (forall i :: 0 <= i < |users| && LastWithId(users, i) ==> r[IntId(users[i])] == users[i])
  {
    IdsSnoc(users);
    var init := users[..|users| - 1];
    var last := users[|users| - 1];
    var r := m[IntId(last) := last];
    forall k | k in r ensures r[k] in users {
      if k != IntId(last) {
        var i :| 0 <= i < |init| && init[i] == m[k];
        assert users[i] == init[i];
      }
    }
    forall i | 0 <= i < |users| && LastWithId(users, i) ensures r[IntId(users[i])] == users[i] {
      if i < |users| - 1 {
        assert IntId(users[|users| - 1]) != IntId(users[i]);
        assert LastWithId(init, i) by {
          forall j | i < j < |init| ensures IntId(init[j]) != IntId(init[i]) {
            assert init[j] == users[j] && init[i] == users[i];
          }
        }
        assert init[i] == users[i];
      }
    }
  }

  // ---------------------------------------------------------------------------
  // Reducer
  // ---------------------------------------------------------------------------

  /** A presence-diff join whose record carries a `user` object with an integer id. */
  predicate JoinHasUser(join: Join)
  {
    "user" in join.presence && join.presence["user"].Obj? && HasIntId(join.presence["user"].fields)
  }

  /** `joins[token].user`. */
  function JoinedUser(join: Join): Record
    requires JoinHasUser(join)
  {
    join.presence["user"].fields
  }

  /** The users of the joins, in the joins' order. */
  function JoinedUsers(joins: seq<Join>): (users: seq<Record>)
    requires forall i :: 0 <= i < |joins| ==> JoinHasUser(joins[i])
    ensures |users| == |joins|
    ensures forall i :: 0 <= i < |joins| ==> users[i] == JoinedUser(joins[i])
    ensures AllHaveIds(users)
  {
    var users := seq(|joins|, i requires 0 <= i < |joins| => JoinedUser(joins[i]));
    assert AllHaveIds(users) by {
      forall i | 0 <= i < |users| ensures HasIntId(users[i]) {
        assert users[i] == JoinedUser(joins[i]);
      }
    }
    users
  }

  /** What the reducer needs of an action's payload: user records carry integer ids. */
  predicate Accepts(action: Action)
  {
    match action
    case SetInitialState(initialState) => AllHaveIds(initialState.users)
    case SetPresences(presences) => AllHaveIds(presences)
    case SyncPresenceDiff(joins) => forall i :: 0 <= i < |joins| ==> JoinHasUser(joins[i])
    case UserUpdateCommitted(updatedUser) => HasIntId(updatedUser)
    case _ => true
  }

  /** The action types the usersById reducer has a case for. */
  predicate Handles(action: Action)
  {
    action.SetInitialState? || action.SetPresences? || action.SyncPresenceDiff? || action.UserUpdateCommitted?
  }

  /** The reducer on a defined prior state. */
  function Reduce(state: UserMap, action: Action): (r: UserMap)
    requires Accepts(action)
    ensures WellTyped(action) && !Handles(action) ==> r == state
    ensures action.SetPresences? || action.SyncPresenceDiff? ==> state.Keys <= r.Keys
    ensures action.UserUpdateCommitted? ==> r.Keys == state.Keys
  {
    match action
    case SetInitialState(initialState) => KeyById(initialState.users)
    case SetPresences(presences) => state + KeyById(presences)
    case SyncPresenceDiff(joins) => state + KeyById(JoinedUsers(joins))
    case UserUpdateCommitted(updatedUser) =>
      var id := IntId(updatedUser);
      if id in state then state[id := Merge(state[id], updatedUser)] else state
    case _ => state
  }

  /** `reducer(state = {}, action)`. */
  function Reducer(state: Option<UserMap>, action: Action): (r: UserMap)
    requires Accepts(action)
    ensures state.None? && WellTyped(action) && !Handles(action) ==> r == map[]
    ensures state.None? ==> r == Reduce(map[], action)
    ensures state.Some? ==> r == Reduce(state.value, action)
  {
    Reduce(if state.Some? then state.value else map[], action)
  }

  // ---------------------------------------------------------------------------
  // Properties of the reducer
  // ---------------------------------------------------------------------------

  /** Unhandled actions return the given state, or the empty map when there is none. */
  lemma UnhandledIsIdentity(state: Option<UserMap>, action: Action)
    requires WellTyped(action) && !Handles(action)
    ensures Reducer(state, action) == if state.Some? then state.value else map[]
    ensures Reducer(None, action) == map[]
  {
  }

  /**
   * Bootstrap builds a map whose keys are exactly the users' ids, each key
   * holding that full user; applying it twice equals applying it once.
   */
  lemma BootstrapKeysUsersById(state: UserMap, initialState: InitialState)
    requires AllHaveIds(initialState.users)
    ensures var r := Reduce(state, SetInitialState(initialState));
      && r.Keys == Ids(initialState.users)
      && WellKeyed(r)
      && (forall i :: 0 <= i < |initialState.users| && LastWithId(initialState.users, i) ==>
            r[IntId(initialState.users[i])] == initialState.users[i])
      && Reduce(r, SetInitialState(initialState)) == r
  {
  }

  /**
   * SET_PRESENCES files every presence under its id, the incoming record
   * replacing an entry with the same id; entries with other ids are kept.
   */
  lemma SetPresencesInserts(state: UserMap, presences: seq<Record>)
    requires AllHaveIds(presences)
    ensures var r := Reduce(state, SetPresences(presences));
      && r.Keys == state.Keys + Ids(presences)
      && (forall i :: 0 <= i < |presences| && LastWithId(presences, i) ==>
            r[IntId(presences[i])] == presences[i])
      && (forall k :: k in state && k !in Ids(presences) ==> r[k] == state[k])
  {
  }

  /**
   * SYNC_PRESENCE_DIFF files the user of every join under that user's id: the
   * keys become the old keys plus the joined ids, the last join of an id
   * gives its entry, and entries no join touches are kept.
   */
  lemma SyncJoinsInsert(state: UserMap, joins: seq<Join>)
    requires forall i :: 0 <= i < |joins| ==> JoinHasUser(joins[i])
    ensures var users := JoinedUsers(joins);
      var r := Reduce(state, SyncPresenceDiff(joins));
      && r.Keys == state.Keys + Ids(users)
      && (forall i :: 0 <= i < |joins| && LastWithId(users, i) ==> r[IntId(users[i])] == JoinedUser(joins[i]))
      && (forall k :: k in state && k !in Ids(users) ==> r[k] == state[k])
  {
  }

  /**
   * USER_UPDATE_COMMITTED merges the update into the entry with its id: the
   * update's fields win, fields it lacks (ephemeral ones) are kept; no other
   * entry changes, and an id not on the state changes nothing.
   */
  lemma UpdateCommittedMerges(state: UserMap, updatedUser: Record)
    requires HasIntId(updatedUser)
    ensures var r := Reduce(state, UserUpdateCommitted(updatedUser));
      var id := IntId(updatedUser);
      && r.Keys == state.Keys
      && (forall k :: k in state && k != id ==> r[k] == state[k])
      && (id in state ==>
            && r[id].Keys == state[id].Keys + updatedUser.Keys
            && (forall f :: f in updatedUser ==> r[id][f] == updatedUser[f])
            && (forall f :: f in state[id] && f !in updatedUser ==> r[id][f] == state[id][f]))
      && (id !in state ==> r == state)
  {
  }

  /** Every handled action keeps each record filed under its own id. */
  lemma ReducePreservesWellKeyed(state: UserMap, action: Action)
    requires WellKeyed(state) && Accepts(action)
    ensures WellKeyed(Reduce(state, action))
  {
    if action.UserUpdateCommitted? {
      var id := IntId(action.updatedUser);
      if id in state {
        assert Merge(state[id], action.updatedUser)["id"] == action.updatedUser["id"];
      }
    }
  }

  // ---------------------------------------------------------------------------
  // Selectors
  // ---------------------------------------------------------------------------

  datatype Retro = Retro(facilitatorId: Value)

  /** The parts of the store's state the selectors read. */
  datatype State = State(retro: Retro, presences: seq<Record>, usersById: UserMap)

  /** `getUserById(state, userId)`: the record filed under `userId`, if any. */
  function GetUserById(state: State, userId: int): (u: Option<Record>)
    ensures u.Some? <==> userId in state.usersById
    ensures u.Some? ==> u.value == state.usersById[userId]
    ensures u.Some? && WellKeyed(state.usersById) ==> HasId(u.value, Int(userId))
  {
    if userId in state.usersById then Some(state.usersById[userId]) else None
  }

  /** A presence whose `user_id` is an integer filed in `usersById`. */
  predicate Resolves(presence: Record, usersById: UserMap)
  {
    "user_id" in presence && presence["user_id"].Int? && presence["user_id"].i in usersById
  }

  predicate AllResolve(presences: seq<Record>, usersById: UserMap)
  {
    forall i :: 0 <= i < |presences| ==> Resolves(presences[i], usersById)
  }

  /**
   * One presence joined with its user: the presence's fields without
   * `user_id`, then the user's fields, then `is_facilitator`.
   */
  function PresenceWithUser(presence: Record, user: Record, facilitatorId: Value): (e: Record)
    ensures "is_facilitator" in e && e["is_facilitator"] == Bool(HasId(user, facilitatorId))
    ensures "user_id" in e <==> "user_id" in user
  {
    Merge(Merge(Omit(presence, "user_id"), user), map["is_facilitator" := Bool(HasId(user, facilitatorId))])
  }

  /**
   * The joined entry has the presence's keys without `user_id`, the user's
   * keys and `is_facilitator`; user fields win over presence fields, and
   * `is_facilitator` says whether the user's id is the facilitator's.
   */
  lemma PresenceWithUserFields(presence: Record, user: Record, facilitatorId: Value)
    ensures var e := PresenceWithUser(presence, user, facilitatorId);
      && e.Keys == (presence.Keys - {"user_id"}) + user.Keys + {"is_facilitator"}
      && e["is_facilitator"] == Bool(HasId(user, facilitatorId))
      && (forall f :: f in user && f != "is_facilitator" ==> e[f] == user[f])
      && (forall f :: f in presence && f !in user && f != "user_id" && f != "is_facilitator" ==>
            e[f] == presence[f])
  {
  }

  function UserOf(presence: Record, usersById: UserMap): Record
    requires Resolves(presence, usersById)
  {
    usersById[presence["user_id"].i]
  }

  /** `getUserPresences(state)`: one joined entry per presence, in presence order. */
  function GetUserPresences(state: State): (r: seq<Record>)
    requires AllResolve(state.presences, state.usersById)
    ensures |r| == |state.presences|
    ensures forall i :: 0 <= i < |r| ==>
              r[i] == PresenceWithUser(state.presences[i], UserOf(state.presences[i], state.usersById),
                                       state.retro.facilitatorId)
  {
    seq(|state.presences|, i requires 0 <= i < |state.presences| =>
      PresenceWithUser(state.presences[i], UserOf(state.presences[i], state.usersById), state.retro.facilitatorId))
  }

  /**
   * On a well-keyed map each entry has the id of its presence's user, says
   * whether that id is the facilitator's, and carries every field of the user.
   */
  lemma PresenceEntriesCarryFacilitatorFlag(state: State, i: int)
    requires AllResolve(state.presences, state.usersById) && WellKeyed(state.usersById)
    requires 0 <= i < |state.presences|
    ensures var e := GetUserPresences(state)[i];
      var userId := state.presences[i]["user_id"].i;
      var user := state.usersById[userId];
      && HasId(e, Int(userId))
      && e["is_facilitator"] == Bool(Int(userId) == state.retro.facilitatorId)
      && ("user_id" !in user ==> "user_id" !in e)
      && (forall f :: f in user && f != "is_facilitator" ==> f in e && e[f] == user[f])
  {
    var userId := state.presences[i]["user_id"].i;
    var user := state.usersById[userId];
    assert HasIntId(user) && IntId(user) == userId;
    PresenceWithUserFields(state.presences[i], user, state.retro.facilitatorId);
  }

  /** The presence belongs to the connection with session token `token`. */
  predicate HasToken(presence: Record, token: string)
  {
    "token" in presence && presence["token"] == Str(token)
  }

  /** The position of the first presence holding `token`, if any. */
  function FindToken(presences: seq<Record>, token: string): (i: Option<nat>)
    ensures i.Some? ==> i.value < |presences| && HasToken(presences[i.value], token)
    ensures i.Some? ==> forall j :: 0 <= j < i.value ==> !HasToken(presences[j], token)
    ensures i.None? <==> forall j :: 0 <= j < |presences| ==> !HasToken(presences[j], token)
  {
    if presences == [] then None
    else if HasToken(presences[0], token) then Some(0)
    else match FindToken(presences[1..], token)
      case None => None
      case Some(j) => Some(j + 1)
  }

  /**
   * The join of `getCurrentUserPresence` with the session token passed in:
   * the entry of the first presence holding `token`, or nothing when none does.
   */
  function CurrentUserPresence(state: State, token: string): (r: Option<Record>)
    requires AllResolve(state.presences, state.usersById)
    ensures r.None? <==> forall j :: 0 <= j < |state.presences| ==> !HasToken(state.presences[j], token)
    ensures r.Some? ==> exists j :: 0 <= j < |state.presences| && HasToken(state.presences[j], token) &&
                          r.value == GetUserPresences(state)[j]
  {
    match FindToken(state.presences, token)
    case None => None
    case Some(j) => Some(GetUserPresences(state)[j])
  }

  // ---------------------------------------------------------------------------
  // The updateUserAsync thunk, as the push and the actions it dispatches
  // ---------------------------------------------------------------------------

  /** `{ id, ...params }`: the payload pushed as `user_edited`. */
  function UserEditPayload(userId: int, params: Record): (p: Record)
    ensures p.Keys == {"id"} + params.Keys
  {
    Merge(map["id" := Int(userId)], params)
  }

  /** The payload carries every param and, unless a param overrides it, the id. */
  lemma UserEditPayloadCarriesParams(userId: int, params: Record)
    ensures var p := UserEditPayload(userId, params);
      && p.Keys == {"id"} + params.Keys
      && (forall f :: f in params ==> p[f] == params[f])
      && ("id" !in params ==> HasId(p, Int(userId)))
  {
  }

  /** What `updateUserAsync` dispatches once its push is answered. */
  function UpdateUserTrace(reply: Reply): (r: seq<Action>)
    ensures |r| == if reply.NoReply? then 0 else 1
    ensures reply.Ok? ==> r[0].UserUpdateCommitted? && r[0].updatedUser == reply.response
    ensures reply.Error? ==> r[0] == UserUpdateRejected
  {
    match reply
    case Ok(response) => [UserUpdateCommitted(response)]
    case Error(_) => [UserUpdateRejected]
    case NoReply => []
  }

  /**
   * Exactly one settlement per answered push, none without an answer; the
   * commit carries the server's payload, not the local params.
   */
  lemma UpdateUserSettlesOnce(reply: Reply)
    ensures var t := UpdateUserTrace(reply);
      && |t| == (if reply.NoReply? then 0 else 1)
      && (reply.Ok? ==> t[0].UserUpdateCommitted? && t[0].updatedUser == reply.response)
      && (reply.Error? ==> t[0].UserUpdateRejected?)
      && (forall a :: a in t ==> a.UserUpdateCommitted? != a.UserUpdateRejected?)
  {
  }

  /** A committed user edit, applied to the slice, merges the server's record into the entry. */
  lemma UpdateUserOkMerges(state: UserMap, response: Record)
    requires HasIntId(response) && IntId(response) in state
    ensures var r := Reduce(state, UpdateUserTrace(Ok(response))[0]);
      && r.Keys == state.Keys
      && r[IntId(response)] == Merge(state[IntId(response)], response)
  {
  }
}
