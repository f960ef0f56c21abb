/**
 * The action records that flow through the single dispatch path of the
 * client store, the replies of the channel transport and the messages pushed
 * on it.
 */
module Actions {
  import opened Json

  /** The bootstrap payload of SET_INITIAL_STATE. */
  datatype InitialState = InitialState(users: seq<Record>, ideas: seq<Record>)

  /** One entry of a presence diff's `joins` object, in the object's key order. */
  datatype Join = Join(token: string, presence: Record)

  datatype Action =
    | SetInitialState(initialState: InitialState)
    | IdeaSubmissionCommitted(idea: Record)
    | IdeaSubmissionRejected
    | IdeaUpdateCommitted(ideaId: Value, newAttributes: Record)
    | IdeaUpdateRejected
    | IdeaDeletionCommitted(ideaId: Value)
    | IdeaDeletionRejected(ideaId: Value)
    | SetPresences(presences: seq<Record>)
    | SyncPresenceDiff(joins: seq<Join>)
    | UserUpdateCommitted(updatedUser: Record)
    | UserUpdateRejected
      /** Any action whose type no reducer of this core handles (also a missing type); see `WellTyped`. */
    | Unhandled(actionType: string)
  {
    /** The action's `type` string. */
    function Type(): string
    {
      match this
      case SetInitialState(_) => "SET_INITIAL_STATE"
      case IdeaSubmissionCommitted(_) => "IDEA_SUBMISSION_COMMITTED"
      case IdeaSubmissionRejected => "IDEA_SUBMISSION_REJECTED"
      case IdeaUpdateCommitted(_, _) => "IDEA_UPDATE_COMMITTED"
      case IdeaUpdateRejected => "IDEA_UPDATE_REJECTED"
      case IdeaDeletionCommitted(_) => "IDEA_DELETION_COMMITTED"
      case IdeaDeletionRejected(_) => "IDEA_DELETION_REJECTED"
      case SetPresences(_) => "SET_PRESENCES"
      case SyncPresenceDiff(_) => "SYNC_PRESENCE_DIFF"
      case UserUpdateCommitted(_) => "USER_UPDATE_COMMITTED"
      case UserUpdateRejected => "USER_UPDATE_REJECTED"
      case Unhandled(t) => t
    }
  }

  /** The `type` strings that have a constructor of their own (some of them, like the rejections, have no reducer case). */
  const NamedTypes: set<string> :=
    {"SET_INITIAL_STATE", "IDEA_SUBMISSION_COMMITTED", "IDEA_SUBMISSION_REJECTED",
     "IDEA_UPDATE_COMMITTED", "IDEA_UPDATE_REJECTED", "IDEA_DELETION_COMMITTED",
     "IDEA_DELETION_REJECTED", "SET_PRESENCES", "SYNC_PRESENCE_DIFF",
     "USER_UPDATE_COMMITTED", "USER_UPDATE_REJECTED"}

  /**
   * An action whose `type` string decides its case: an `Unhandled` action
   * carries none of the named types, which have constructors of their own.
   */
  predicate WellTyped(action: Action)
  {
    action.Unhandled? ==> action.actionType !in NamedTypes
  }

  /** On well-typed actions a named `type` string is exactly a named constructor. */
  lemma NamedTypeIffConstructor(action: Action)
    requires WellTyped(action)
    ensures action.Type() in NamedTypes <==> !action.Unhandled?
  {
  }

  /** On well-typed actions the `type` string decides the constructor, as the reducers' `switch` does. */
  lemma TypeDecidesCase(a: Action, b: Action)
    requires WellTyped(a) && WellTyped(b) && a.Type() == b.Type()
    ensures a.Unhandled? <==> b.Unhandled?
    ensures a.SetInitialState? <==> b.SetInitialState?
    ensures a.IdeaSubmissionCommitted? <==> b.IdeaSubmissionCommitted?
    ensures a.IdeaSubmissionRejected? <==> b.IdeaSubmissionRejected?
    ensures a.IdeaUpdateCommitted? <==> b.IdeaUpdateCommitted?
    ensures a.IdeaUpdateRejected? <==> b.IdeaUpdateRejected?
    ensures a.IdeaDeletionCommitted? <==> b.IdeaDeletionCommitted?
    ensures a.IdeaDeletionRejected? <==> b.IdeaDeletionRejected?
    ensures a.SetPresences? <==> b.SetPresences?
    ensures a.SyncPresenceDiff? <==> b.SyncPresenceDiff?
    ensures a.UserUpdateCommitted? <==> b.UserUpdateCommitted?
    ensures a.UserUpdateRejected? <==> b.UserUpdateRejected?
  {
    NamedTypeIffConstructor(a);
    NamedTypeIffConstructor(b);
  }

  /** How a push was answered: the `"ok"` or `"error"` reply with its payload, or not at all. */
  datatype Reply = Ok(response: Record) | Error(response: Record) | NoReply

  /** One call of `retroChannel.push(event, payload)`. */
  datatype Push = Push(event: string, payload: Value)
}
