/**
 * The ideas slice of the client store: an ordered list of idea records, its
 * action creators, its reducer, and the actions its three channel thunks
 * dispatch.
 */
module Ideas {
  import opened Wrappers
  import opened Json
  import opened Actions

  // ---------------------------------------------------------------------------
  // Action creators
  // ---------------------------------------------------------------------------

  /** `updateIdea(ideaId, newAttributes)`. */
  function UpdateIdea(ideaId: Value, newAttributes: Record): (a: Action)
    ensures a.IdeaUpdateCommitted? && a.Type() == "IDEA_UPDATE_COMMITTED"
    ensures a.ideaId == ideaId && a.newAttributes == newAttributes
  {
    IdeaUpdateCommitted(ideaId, newAttributes)
  }

  /** `addIdea(idea)`. */
  function AddIdea(idea: Record): (a: Action)
    ensures a.IdeaSubmissionCommitted? && a.Type() == "IDEA_SUBMISSION_COMMITTED"
    ensures a.idea == idea
  {
    IdeaSubmissionCommitted(idea)
  }

  /** `deleteIdea(ideaId)`. */
  function DeleteIdea(ideaId: Value): (a: Action)
    ensures a.IdeaDeletionCommitted? && a.Type() == "IDEA_DELETION_COMMITTED"
    ensures a.ideaId == ideaId
  {
    IdeaDeletionCommitted(ideaId)
  }

  /** `ideaDeletionRejected(ideaId)`. */
  function DeletionRejected(ideaId: Value): (a: Action)
    ensures a.IdeaDeletionRejected? && a.Type() == "IDEA_DELETION_REJECTED"
    ensures a.ideaId == ideaId
  {
    IdeaDeletionRejected(ideaId)
  }

  // ---------------------------------------------------------------------------
  // Reducer
  // ---------------------------------------------------------------------------

  /** `state.map(idea => idea.id === ideaId ? f(idea) : idea)`. */
  function MapMatching(state: seq<Record>, ideaId: Value, f: Record -> Record): (r: seq<Record>)
    ensures |r| == |state|
    ensures forall i :: 0 <= i < |state| && HasId(state[i], ideaId) ==> r[i] == f(state[i])
    ensures forall i :: 0 <= i < |state| && !HasId(state[i], ideaId) ==> r[i] == state[i]
  {
    if state == [] then []
    else [if HasId(state[0], ideaId) then f(state[0]) else state[0]] + MapMatching(state[1..], ideaId, f)
  }

  /** `state.filter(idea => idea.id !== ideaId)`. */
  function RemoveMatching(state: seq<Record>, ideaId: Value): (r: seq<Record>)
    ensures |r| <= |state|
    ensures forall x :: x in r <==> x in state && !HasId(x, ideaId)
  {
    if state == [] then []
    else if HasId(state[0], ideaId) then RemoveMatching(state[1..], ideaId)
    else [state[0]] + RemoveMatching(state[1..], ideaId)
  }

  /** The attributes an IDEA_DELETION_REJECTED spreads over a matching idea. */
  function DeletionReset(): Record
  {
    map["deletionSubmitted" := Bool(false)]
  }

  /** The attributes the optimistic deletion request merges into the idea. */
  function DeletionPending(): Record
  {
    map["deletionSubmitted" := Bool(true)]
  }

  /** The action types the ideas reducer has a case for. */
  predicate Handles(action: Action)
  {
    || action.SetInitialState?
    || action.IdeaSubmissionCommitted?
    || action.IdeaUpdateCommitted?
    || action.IdeaDeletionCommitted?
    || action.IdeaDeletionRejected?
  }

  /** The reducer on a defined prior state. */
  function Reduce(state: seq<Record>, action: Action): (r: seq<Record>)
    ensures WellTyped(action) && !Handles(action) ==> r == state
    ensures action.IdeaSubmissionCommitted? ==> |r| == |state| + 1
    ensures action.IdeaUpdateCommitted? || action.IdeaDeletionRejected? ==> |r| == |state|
    ensures action.IdeaDeletionCommitted? ==> |r| <= |state|
  {
    match action
    case SetInitialState(initialState) => initialState.ideas
    case IdeaSubmissionCommitted(idea) => state + [idea]
    case IdeaUpdateCommitted(ideaId, newAttributes) =>
      MapMatching(state, ideaId, idea => Merge(idea, newAttributes))
    case IdeaDeletionCommitted(ideaId) => RemoveMatching(state, ideaId)
    case IdeaDeletionRejected(ideaId) =>
      MapMatching(state, ideaId, idea => Merge(idea, DeletionReset()))
    case _ => state
  }

  /** `reducer(state = [], action)`: an undefined prior state starts as the empty list. */
  function Reducer(state: Option<seq<Record>>, action: Action): (r: seq<Record>)
    ensures state.None? && WellTyped(action) && !Handles(action) ==> r == []
    ensures state.None? ==> r == Reduce([], action)
    ensures state.Some? ==> r == Reduce(state.value, action)
  {
    Reduce(if state.Some? then state.value else [], action)
  }

  /** The state after dispatching `actions` in order. */
  function ReduceAll(state: seq<Record>, actions: seq<Action>): seq<Record>
    decreases actions
  {
    if actions == [] then state else ReduceAll(Reduce(state, actions[0]), actions[1..])
  }

  // ---------------------------------------------------------------------------
  // Properties of the reducer
  // ---------------------------------------------------------------------------

  /** Unhandled actions, the two non-deletion rejections among them, return the state as given. */
  lemma UnhandledIsIdentity(state: Option<seq<Record>>, action: Action)
    requires WellTyped(action) && !Handles(action)
    ensures Reducer(state, action) == if state.Some? then state.value else []
    ensures Reducer(None, action) == []
  {
  }

  lemma RejectionsOfSubmitAndEditAreUnhandled()
    ensures !Handles(IdeaSubmissionRejected) && !Handles(IdeaUpdateRejected)
  {
  }

  /** Bootstrap replaces the list wholesale, so applying it twice equals applying it once. */
  lemma BootstrapReplaces(state: seq<Record>, initialState: InitialState)
    ensures Reduce(state, SetInitialState(initialState)) == initialState.ideas
    ensures Reduce(Reduce(state, SetInitialState(initialState)), SetInitialState(initialState))
         == Reduce(state, SetInitialState(initialState))
  {
  }

  /** A committed submission appends: the old list is a prefix and the idea is last. */
  lemma SubmissionAppends(state: seq<Record>, idea: Record)
    ensures var r := Reduce(state, AddIdea(idea));
      && |r| == |state| + 1
      && r[..|state|] == state
      && r[|state|] == idea
  {
  }

  /**
   * A committed update keeps length and order, leaves other ideas alone and
   * merges the new attributes into each matching idea: new keys win and keys
   * the update does not mention keep their values.
   */
  lemma UpdateMergesMatching(state: seq<Record>, ideaId: Value, newAttributes: Record)
    ensures var r := Reduce(state, UpdateIdea(ideaId, newAttributes));
      && |r| == |state|
      && (forall i :: 0 <= i < |state| && !HasId(state[i], ideaId) ==> r[i] == state[i])
      && (forall i :: 0 <= i < |state| && HasId(state[i], ideaId) ==>
            && r[i].Keys == state[i].Keys + newAttributes.Keys
            && (forall k :: k in newAttributes ==> r[i][k] == newAttributes[k])
            && (forall k :: k in state[i] && k !in newAttributes ==> r[i][k] == state[i][k]))
  {
  }

  /** A committed deletion keeps exactly the ideas whose id differs; none with that id is left. */
  lemma DeletionRemovesExactly(state: seq<Record>, ideaId: Value)
    ensures var r := Reduce(state, DeleteIdea(ideaId));
      && (forall x :: x in r <==> x in state && !HasId(x, ideaId))
      && (forall i :: 0 <= i < |r| ==> !HasId(r[i], ideaId))
  {
  }

  /** Filtering distributes over concatenation: the kept ideas stay in their original order. */
  lemma {:induction false} RemoveMatchingConcat(a: seq<Record>, b: seq<Record>, ideaId: Value)
    ensures RemoveMatching(a + b, ideaId) == RemoveMatching(a, ideaId) + RemoveMatching(b, ideaId)
  {
    if a == [] {
      assert a + b == b;
    } else {
      assert (a + b)[0] == a[0];
      assert (a + b)[1..] == a[1..] + b;
      RemoveMatchingConcat(a[1..], b, ideaId);
    }
  }

  /** A list without a matching idea is left as it is by the filter. */
  lemma {:induction false} RemoveMatchingNoop(state: seq<Record>, ideaId: Value)
    requires forall i :: 0 <= i < |state| ==> !HasId(state[i], ideaId)
    ensures RemoveMatching(state, ideaId) == state
  {
    if state != [] {
      RemoveMatchingNoop(state[1..], ideaId);
    }
  }

  /** Deleting the same id a second time changes nothing. */
  lemma DeletionIdempotent(state: seq<Record>, ideaId: Value)
    ensures var once := Reduce(state, DeleteIdea(ideaId));
      Reduce(once, DeleteIdea(ideaId)) == once
  {
    var once := Reduce(state, DeleteIdea(ideaId));
    RemoveMatchingNoop(once, ideaId);
  }

  /**
   * A rejected deletion keeps length, order and ids; matching ideas get
   * `deletionSubmitted` false with every other field intact, other ideas are
   * unchanged.
   */
  lemma DeletionRejectedResetsFlag(state: seq<Record>, ideaId: Value)
    ensures var r := Reduce(state, DeletionRejected(ideaId));
      && |r| == |state|
      && (forall i :: 0 <= i < |state| && !HasId(state[i], ideaId) ==> r[i] == state[i])
      && (forall i :: 0 <= i < |state| && HasId(state[i], ideaId) ==>
            && HasId(r[i], ideaId)
            && "deletionSubmitted" in r[i] && r[i]["deletionSubmitted"] == Bool(false)
            && Omit(r[i], "deletionSubmitted") == Omit(state[i], "deletionSubmitted"))
  {
    var r := Reduce(state, DeletionRejected(ideaId));
    forall i | 0 <= i < |state| && HasId(state[i], ideaId)
      ensures Omit(r[i], "deletionSubmitted") == Omit(state[i], "deletionSubmitted")
    {
      assert r[i] == Merge(state[i], DeletionReset());
    }
  }

  /** Dispatching two batches in turn is dispatching their concatenation. */
  lemma {:induction false} ReduceAllConcat(state: seq<Record>, a: seq<Action>, b: seq<Action>)
    ensures ReduceAll(state, a + b) == ReduceAll(ReduceAll(state, a), b)
    decreases a
  {
    if a == [] {
      assert a + b == b;
    } else {
      assert (a + b)[0] == a[0];
      assert (a + b)[1..] == a[1..] + b;
      ReduceAllConcat(Reduce(state, a[0]), a[1..], b);
    }
  }

  // ---------------------------------------------------------------------------
  // The thunks, as the actions they dispatch
  // ---------------------------------------------------------------------------

  /** `submitIdeaEditAsync`: a rejection on an error reply, nothing otherwise. */
  function EditTrace(reply: Reply): (r: seq<Action>)
    ensures |r| <= 1 && (r != [] <==> reply.Error?)
    ensures forall i :: 0 <= i < |r| ==> r[i] == IdeaUpdateRejected && r[i].Type() == "IDEA_UPDATE_REJECTED"
  {
    if reply.Error? then [IdeaUpdateRejected] else []
  }

  /** `submitIdea`: a rejection on an error reply, nothing otherwise. */
  function SubmissionTrace(reply: Reply): (r: seq<Action>)
    ensures |r| <= 1 && (r != [] <==> reply.Error?)
    ensures forall i :: 0 <= i < |r| ==> r[i] == IdeaSubmissionRejected && r[i].Type() == "IDEA_SUBMISSION_REJECTED"
  {
    if reply.Error? then [IdeaSubmissionRejected] else []
  }

  /** `submitIdeaDeletionAsync`: the optimistic flag first, then a rejection on an error reply. */
  function DeletionTrace(ideaId: Value, reply: Reply): (r: seq<Action>)
    ensures |r| == if reply.Error? then 2 else 1
    ensures r[0].IdeaUpdateCommitted? && r[0].ideaId == ideaId
    ensures r[0].newAttributes == map["deletionSubmitted" := Bool(true)]
    ensures reply.Error? ==> r[1].IdeaDeletionRejected? && r[1].ideaId == ideaId
  {
    [UpdateIdea(ideaId, DeletionPending())] + if reply.Error? then [DeletionRejected(ideaId)] else []
  }

  /** How many actions of `trace` satisfy `p`. */
  function Count(trace: seq<Action>, p: Action -> bool): (n: nat)
    ensures n <= |trace|
  {
    if trace == [] then 0 else (if p(trace[0]) then 1 else 0) + Count(trace[1..], p)
  }

  predicate IsRejection(a: Action)
  {
    a.IdeaSubmissionRejected? || a.IdeaUpdateRejected? || a.IdeaDeletionRejected?
  }

  /**
   * Each thunk dispatches exactly one rejection on an error reply and none
   * otherwise; no thunk dispatches anything on an ok reply beyond what it
   * dispatched before the reply.
   */
  lemma ThunksRejectOnlyOnError(ideaId: Value, reply: Reply)
    ensures Count(EditTrace(reply), IsRejection) == if reply.Error? then 1 else 0
    ensures Count(SubmissionTrace(reply), IsRejection) == if reply.Error? then 1 else 0
    ensures Count(DeletionTrace(ideaId, reply), IsRejection) == if reply.Error? then 1 else 0
    ensures !reply.Error? ==> EditTrace(reply) == [] && SubmissionTrace(reply) == []
    ensures DeletionTrace(ideaId, reply)[0] == UpdateIdea(ideaId, DeletionPending())
  {
    var t := DeletionTrace(ideaId, reply);
    assert t[1..] == if reply.Error? then [DeletionRejected(ideaId)] else [];
    if reply.Error? {
      assert t[1..][1..] == [];
    }
  }

  /** The submit and edit rejections leave the ideas list untouched. */
  lemma SubmitAndEditTracesKeepIdeas(state: seq<Record>, reply: Reply)
    ensures ReduceAll(state, EditTrace(reply)) == state
    ensures ReduceAll(state, SubmissionTrace(reply)) == state
  {
    if reply.Error? {
      assert [IdeaUpdateRejected][1..] == [];
      assert [IdeaSubmissionRejected][1..] == [];
    }
  }

  /** Dispatching two actions one after the other. */
  lemma ReduceAllPair(state: seq<Record>, first: Action, second: Action)
    ensures ReduceAll(state, [first, second]) == Reduce(Reduce(state, first), second)
  {
    assert [first, second][1..] == [second];
    assert [second][1..] == [];
    assert ReduceAll(state, [first, second]) == ReduceAll(Reduce(state, first), [second]);
    assert ReduceAll(Reduce(state, first), [second]) == ReduceAll(Reduce(Reduce(state, first), second), []);
  }

  /** Resetting the flag after setting it is resetting it. */
  lemma ResetAfterPending(idea: Record)
    ensures Merge(Merge(idea, DeletionPending()), DeletionReset()) == Merge(idea, DeletionReset())
  {
  }

  /** The rejection undoes the optimistic flag: the whole trace equals the rejection alone. */
  lemma DeletionRejectionUndoesPending(state: seq<Record>, ideaId: Value, response: Record)
    ensures ReduceAll(state, DeletionTrace(ideaId, Error(response))) == Reduce(state, DeletionRejected(ideaId))
  {
    var t := DeletionTrace(ideaId, Error(response));
    assert t == [UpdateIdea(ideaId, DeletionPending()), DeletionRejected(ideaId)];
    ReduceAllPair(state, UpdateIdea(ideaId, DeletionPending()), DeletionRejected(ideaId));
    var pending := MapMatching(state, ideaId, idea => Merge(idea, DeletionPending()));
    var r := MapMatching(pending, ideaId, idea => Merge(idea, DeletionReset()));
    var direct := MapMatching(state, ideaId, idea => Merge(idea, DeletionReset()));
    forall i | 0 <= i < |state|
      ensures r[i] == direct[i]
    {
      if HasId(state[i], ideaId) {
        assert HasId(pending[i], ideaId);
        ResetAfterPending(state[i]);
      }
    }
    assert r == direct;
  }

  /**
   * After an optimistic deletion that the server rejects, the idea is still in
   * the list with `deletionSubmitted` false and its other fields as before, and
   * every other idea is as it was.
   */
  lemma DeletionRejectionRestores(state: seq<Record>, ideaId: Value, response: Record)
    ensures var r := ReduceAll(state, DeletionTrace(ideaId, Error(response)));
      && |r| == |state|
      && (forall i :: 0 <= i < |state| && !HasId(state[i], ideaId) ==> r[i] == state[i])
      && (forall i :: 0 <= i < |state| && HasId(state[i], ideaId) ==>
            && HasId(r[i], ideaId)
            && "deletionSubmitted" in r[i] && r[i]["deletionSubmitted"] == Bool(false)
            && Omit(r[i], "deletionSubmitted") == Omit(state[i], "deletionSubmitted"))
  {
    DeletionRejectionUndoesPending(state, ideaId, response);
    DeletionRejectedResetsFlag(state, ideaId);
  }

  /** Without an error reply the idea stays listed, flagged as pending deletion. */
  lemma DeletionPendingWithoutError(state: seq<Record>, ideaId: Value, reply: Reply)
    requires !reply.Error?
    ensures var r := ReduceAll(state, DeletionTrace(ideaId, reply));
      && |r| == |state|
      && (forall i :: 0 <= i < |state| && !HasId(state[i], ideaId) ==> r[i] == state[i])
      && (forall i :: 0 <= i < |state| && HasId(state[i], ideaId) ==>
            && HasId(r[i], ideaId)
            && "deletionSubmitted" in r[i] && r[i]["deletionSubmitted"] == Bool(true)
            && Omit(r[i], "deletionSubmitted") == Omit(state[i], "deletionSubmitted"))
  {
    var t := DeletionTrace(ideaId, reply);
    assert t == [UpdateIdea(ideaId, DeletionPending())];
    assert t[1..] == [];
    var r := Reduce(state, t[0]);
    forall i | 0 <= i < |state| && HasId(state[i], ideaId)
      ensures Omit(r[i], "deletionSubmitted") == Omit(state[i], "deletionSubmitted")
    {
      assert r[i] == Merge(state[i], DeletionPending());
    }
  }
}
