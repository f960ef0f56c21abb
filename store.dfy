/**
 * The client store as the thunks see it: `dispatch` runs every slice reducer
 * on the action and records it, and the retro channel records every push.
 * Each thunk runs to completion with the reply to its push given as an input.
 */
module Store {
  import opened Json
  import opened Actions
  import Ideas
  import UsersById

  class Store {
    var ideas: seq<Record>
    var usersById: UsersById.UserMap
    /** Every action dispatched so far, in dispatch order. */
    var dispatched: seq<Action>
    /** Every push made on the retro channel so far, in order. */
    var pushes: seq<Push>

    /**
     * Users are filed under their own ids, and the ideas slice is the
     * reducer folded over everything dispatched, from the empty list the
     * reducer gives an undefined state.
     */
    ghost predicate Valid()
      reads this
    {
      && UsersById.WellKeyed(usersById)
      && ideas == Ideas.ReduceAll([], dispatched)
    }

    constructor ()
      ensures Valid()
      ensures ideas == [] && usersById == map[] && dispatched == [] && pushes == []
    {
      ideas, usersById, dispatched, pushes := [], map[], [], [];
    }

    /** `dispatch(action)`: reduce both slices and record the action. */
    method Dispatch(action: Action)
      requires Valid() && WellTyped(action) && UsersById.Accepts(action)
      modifies this`ideas, this`usersById, this`dispatched
      ensures Valid()
      ensures ideas == Ideas.Reduce(old(ideas), action)
      ensures usersById == UsersById.Reduce(old(usersById), action)
      ensures dispatched == old(dispatched) + [action]
    {
      UsersById.ReducePreservesWellKeyed(usersById, action);
      Ideas.ReduceAllConcat([], dispatched, [action]);
      assert [action][1..] == [];
      ideas := Ideas.Reduce(ideas, action);
      usersById := UsersById.Reduce(usersById, action);
      dispatched := dispatched + [action];
    }

    /** `retroChannel.push(event, payload)`. */
    method ChannelPush(event: string, payload: Value)
      modifies this`pushes
      ensures pushes == old(pushes) + [Push(event, payload)]
    {
      pushes := pushes + [Push(event, payload)];
    }

    /** `submitIdeaEditAsync(ideaParams)`: push, and dispatch a rejection only on an error reply. */
    method SubmitIdeaEditAsync(ideaParams: Record, reply: Reply)
      requires Valid()
      modifies this
      ensures Valid()
      ensures pushes == old(pushes) + [Push("idea_edited", Obj(ideaParams))]
      ensures dispatched == old(dispatched) + Ideas.EditTrace(reply)
      ensures ideas == old(ideas) && usersById == old(usersById)
    {
      ChannelPush("idea_edited", Obj(ideaParams));
      if reply.Error? {
        Dispatch(IdeaUpdateRejected);
      }
    }

    /** `submitIdea(idea)`: push, and dispatch a rejection only on an error reply. */
    method SubmitIdea(idea: Record, reply: Reply)
      requires Valid()
      modifies this
      ensures Valid()
      ensures pushes == old(pushes) + [Push("idea_submitted", Obj(idea))]
      ensures dispatched == old(dispatched) + Ideas.SubmissionTrace(reply)
      ensures ideas == old(ideas) && usersById == old(usersById)
    {
      ChannelPush("idea_submitted", Obj(idea));
      if reply.Error? {
        Dispatch(IdeaSubmissionRejected);
      }
    }

    /**
     * `submitIdeaDeletionAsync(ideaId)`: push, flag the idea as pending
     * deletion at once, and dispatch the rejection only on an error reply.
     */
    method SubmitIdeaDeletionAsync(ideaId: Value, reply: Reply)
      requires Valid()
      modifies this
      ensures Valid()
      ensures pushes == old(pushes) + [Push("idea_deleted", ideaId)]
      ensures dispatched == old(dispatched) + Ideas.DeletionTrace(ideaId, reply)
      ensures ideas == Ideas.ReduceAll(old(ideas), Ideas.DeletionTrace(ideaId, reply))
      ensures usersById == old(usersById)
    {
      ChannelPush("idea_deleted", ideaId);
      var pending := Ideas.UpdateIdea(ideaId, Ideas.DeletionPending());
      ghost var before := ideas;
      Dispatch(pending);
      if reply.Error? {
        Dispatch(Ideas.DeletionRejected(ideaId));
        Ideas.ReduceAllPair(before, pending, Ideas.DeletionRejected(ideaId));
        assert Ideas.DeletionTrace(ideaId, reply) == [pending, Ideas.DeletionRejected(ideaId)];
      } else {
        assert Ideas.DeletionTrace(ideaId, reply) == [pending];
        assert [pending][1..] == [];
        assert Ideas.ReduceAll(before, [pending]) == Ideas.ReduceAll(Ideas.Reduce(before, pending), []);
      }
    }

    /**
     * `updateUserAsync(userId, params)`: push `{ id, ...params }` as
     * `user_edited`; an ok reply commits the server's record, an error reply
     * dispatches the rejection, no reply dispatches nothing.
     */
    method UpdateUserAsync(userId: int, params: Record, reply: Reply)
      requires Valid()
      requires reply.Ok? ==> HasIntId(reply.response)
      modifies this
      ensures Valid()
      ensures pushes == old(pushes) + [Push("user_edited", Obj(UsersById.UserEditPayload(userId, params)))]
      ensures dispatched == old(dispatched) + UsersById.UpdateUserTrace(reply)
      ensures ideas == old(ideas)
      ensures usersById == if reply.Ok? then UsersById.Reduce(old(usersById), UserUpdateCommitted(reply.response))
                           else old(usersById)
    {
      ChannelPush("user_edited", Obj(UsersById.UserEditPayload(userId, params)));
      match reply
      case Ok(response) => Dispatch(UserUpdateCommitted(response));
      case Error(_) => Dispatch(UserUpdateRejected);
      case NoReply =>
    }
  }
}
