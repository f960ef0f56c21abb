/**
 * Concrete examples on the model: the cases of the usersById tests replayed
 * with their fixtures, and two small idea scenarios worked from the ideas
 * reducer itself.
 */
module Examples {
  import opened Wrappers
  import opened Json
  import opened Actions
  import Ideas
  import UsersById

  function User(id: int, name: string): Record
  {
    map["id" := Int(id), "name" := Str(name)]
  }

  /** getUserById selects Betty White, with her name, from the three golden girls. */
  lemma GetUserByIdExample()
    ensures UsersById.GetUserById(
              UsersById.State(UsersById.Retro(Null), [],
                              map[1 := User(1, "Betty White"), 2 := User(2, "Rue McClanahan"),
                                  3 := User(3, "Estelle Getty")]), 1)
         == Some(map["id" := Int(1), "name" := Str("Betty White")])
  {
  }

  /** SET_INITIAL_STATE with Timmy (5) and Hilary (3) files both under their ids. */
  lemma BootstrapExample()
    ensures UsersById.Reducer(None, SetInitialState(InitialState([User(5, "Timmy"), User(3, "Hilary")], [])))
         == map[3 := User(3, "Hilary"), 5 := User(5, "Timmy")]
  {
    var users := [User(5, "Timmy"), User(3, "Hilary")];
    assert users[..1] == [User(5, "Timmy")];
    assert users[..1][..0] == [];
  }

  /** SET_PRESENCES over `{7: Travis}` files Kevin and replaces Travis by Blurg Man. */
  lemma SetPresencesExample()
    ensures UsersById.Reduce(map[7 := User(7, "Travis")], SetPresences([User(6, "Kevin"), User(7, "Blurg Man")]))
         == map[6 := User(6, "Kevin"), 7 := User(7, "Blurg Man")]
  {
    var presences := [User(6, "Kevin"), User(7, "Blurg Man")];
    assert presences[..1] == [User(6, "Kevin")];
    assert presences[..1][..0] == [];
  }

  /** SYNC_PRESENCE_DIFF with joins ABC (Kevin, 60) and XYZ (Sarah, 61) keeps Travis (5). */
  lemma SyncPresenceDiffExample()
    ensures UsersById.Reduce(map[5 := User(5, "Travis")],
                             SyncPresenceDiff([Join("ABC", map["user" := Obj(User(60, "Kevin"))]),
                                               Join("XYZ", map["user" := Obj(User(61, "Sarah"))])]))
         == map[5 := User(5, "Travis"), 60 := User(60, "Kevin"), 61 := User(61, "Sarah")]
  {
    var joins := [Join("ABC", map["user" := Obj(User(60, "Kevin"))]),
                  Join("XYZ", map["user" := Obj(User(61, "Sarah"))])];
    var users := UsersById.JoinedUsers(joins);
    assert users == [User(60, "Kevin"), User(61, "Sarah")];
    assert users[..1] == [User(60, "Kevin")];
    assert users[..1][..0] == [];
  }

  /** USER_UPDATE_COMMITTED keeps `ephemeralAttribute` while adding the update's fields. */
  lemma UpdatePreservesEphemeralExample()
    ensures UsersById.Reduce(map[21 := map["id" := Int(21), "ephemeralAttribute" := Str("nar!")]],
                             UserUpdateCommitted(map["id" := Int(21), "name" := Str("Travis"),
                                                     "email_opt_in" := Bool(false), "nonsense" := Str("value")]))
         == map[21 := map["id" := Int(21), "ephemeralAttribute" := Str("nar!"), "name" := Str("Travis"),
                          "email_opt_in" := Bool(false), "nonsense" := Str("value")]]
  {
    var before := map["id" := Int(21), "ephemeralAttribute" := Str("nar!")];
    var update := map["id" := Int(21), "name" := Str("Travis"), "email_opt_in" := Bool(false), "nonsense" := Str("value")];
    var after := map["id" := Int(21), "ephemeralAttribute" := Str("nar!"), "name" := Str("Travis"),
                     "email_opt_in" := Bool(false), "nonsense" := Str("value")];
    assert Merge(before, update).Keys == after.Keys;
    assert Merge(before, update) == after;
  }

  /** Dropping `user_id` from a two-field presence leaves the two fields. */
  lemma OmitUserIdOfTwoFields(a: string, va: Value, b: string, vb: Value, userId: int)
    requires a != "user_id" && b != "user_id"
    ensures Omit(map[a := va, b := vb, "user_id" := Int(userId)], "user_id") == map[a := va, b := vb]
  {
    var rest := map[a := va, b := vb];
    assert Omit(map[a := va, b := vb, "user_id" := Int(userId)], "user_id").Keys == rest.Keys;
  }

  /** Spreading an id-and-name user over two other fields adds exactly those two. */
  lemma MergeUserOverTwoFields(a: string, va: Value, b: string, vb: Value, userId: int, name: string)
    requires a !in {"id", "name"} && b !in {"id", "name"}
    ensures Merge(map[a := va, b := vb], User(userId, name))
         == map[a := va, b := vb, "id" := Int(userId), "name" := Str(name)]
  {
    var joined := map[a := va, b := vb, "id" := Int(userId), "name" := Str(name)];
    assert Merge(map[a := va, b := vb], User(userId, name)).Keys == joined.Keys;
  }

  /** Spreading a one-field object is updating that field. */
  lemma MergeOneField(r: Record, k: string, v: Value)
    ensures Merge(r, map[k := v]) == r[k := v]
  {
    assert Merge(r, map[k := v]).Keys == r[k := v].Keys;
  }

  /**
   * A presence with two own fields and a `user_id`, joined with a user that
   * has only an id and a name: the two fields, the user's id and name, and the
   * facilitator flag.
   */
  lemma TwoFieldPresenceEntry(a: string, va: Value, b: string, vb: Value, userId: int, name: string, facilitatorId: Value)
    requires a != b
    requires a !in {"user_id", "id", "name", "is_facilitator"} && b !in {"user_id", "id", "name", "is_facilitator"}
    ensures UsersById.PresenceWithUser(map[a := va, b := vb, "user_id" := Int(userId)], User(userId, name), facilitatorId)
         == map["id" := Int(userId), a := va, b := vb, "name" := Str(name),
                "is_facilitator" := Bool(Int(userId) == facilitatorId)]
  {
    OmitUserIdOfTwoFields(a, va, b, vb, userId);
    MergeUserOverTwoFields(a, va, b, vb, userId, name);
    var joined := map[a := va, b := vb, "id" := Int(userId), "name" := Str(name)];
    var flag := Bool(Int(userId) == facilitatorId);
    assert HasId(User(userId, name), facilitatorId) == (Int(userId) == facilitatorId);
    MergeOneField(joined, "is_facilitator", flag);
    var want := map["id" := Int(userId), a := va, b := vb, "name" := Str(name), "is_facilitator" := flag];
    assert joined["is_facilitator" := flag] == want by {
      assert joined["is_facilitator" := flag].Keys == want.Keys;
    }
  }

  /** Betty White's presence (online at 987, typing) joined with her user; she is the facilitator. */
  lemma BettyWhiteEntry()
    ensures UsersById.PresenceWithUser(
              map["online_at" := Int(987), "is_typing" := Bool(true), "user_id" := Int(1)],
              User(1, "Betty White"), Int(1))
         == map["id" := Int(1), "online_at" := Int(987), "is_typing" := Bool(true),
                "name" := Str("Betty White"), "is_facilitator" := Bool(true)]
  {
    TwoFieldPresenceEntry("online_at", Int(987), "is_typing", Bool(true), 1, "Betty White", Int(1));
  }

  /** Estelle Getty's presence (online at 123, not typing) joined with her user; she is not the facilitator. */
  lemma EstelleGettyEntry()
    ensures UsersById.PresenceWithUser(
              map["online_at" := Int(123), "is_typing" := Bool(false), "user_id" := Int(3)],
              User(3, "Estelle Getty"), Int(1))
         == map["id" := Int(3), "online_at" := Int(123), "is_typing" := Bool(false),
                "name" := Str("Estelle Getty"), "is_facilitator" := Bool(false)]
  {
    TwoFieldPresenceEntry("online_at", Int(123), "is_typing", Bool(false), 3, "Estelle Getty", Int(1));
  }

  /** The presence holding token "hErOboy" joined with Estelle Getty, the facilitator. */
  lemma EstelleGettyTokenEntry()
    ensures UsersById.PresenceWithUser(
              map["token" := Str("hErOboy"), "online_at" := Int(15), "user_id" := Int(3)],
              User(3, "Estelle Getty"), Int(3))
         == map["id" := Int(3), "is_facilitator" := Bool(true), "name" := Str("Estelle Getty"),
                "online_at" := Int(15), "token" := Str("hErOboy")]
  {
    TwoFieldPresenceEntry("token", Str("hErOboy"), "online_at", Int(15), 3, "Estelle Getty", Int(3));
    var got := map["id" := Int(3), "token" := Str("hErOboy"), "online_at" := Int(15), "name" := Str("Estelle Getty"),
                   "is_facilitator" := Bool(true)];
    var want := map["id" := Int(3), "is_facilitator" := Bool(true), "name" := Str("Estelle Getty"),
                    "online_at" := Int(15), "token" := Str("hErOboy")];
    assert got == want by {
      assert got.Keys == want.Keys;
    }
  }

  /** getUserPresences on a state with two presences is their two joined entries, in order. */
  lemma TwoPresenceEntries(state: UsersById.State)
    requires |state.presences| == 2 && UsersById.AllResolve(state.presences, state.usersById)
    ensures UsersById.GetUserPresences(state)
         == [UsersById.PresenceWithUser(state.presences[0], UsersById.UserOf(state.presences[0], state.usersById),
                                        state.retro.facilitatorId),
             UsersById.PresenceWithUser(state.presences[1], UsersById.UserOf(state.presences[1], state.usersById),
                                        state.retro.facilitatorId)]
  {
  }

  /** getUserPresences on the fixture state: Betty White (the facilitator), then Estelle Getty. */
  lemma GetUserPresencesExample()
    ensures UsersById.GetUserPresences(UsersById.State(
              UsersById.Retro(Int(1)),
              [map["online_at" := Int(987), "is_typing" := Bool(true), "user_id" := Int(1)],
               map["online_at" := Int(123), "is_typing" := Bool(false), "user_id" := Int(3)]],
              map[1 := User(1, "Betty White"), 2 := User(2, "Rue McClanahan"), 3 := User(3, "Estelle Getty")]))
         == [map["id" := Int(1), "online_at" := Int(987), "is_typing" := Bool(true),
                 "name" := Str("Betty White"), "is_facilitator" := Bool(true)],
             map["id" := Int(3), "online_at" := Int(123), "is_typing" := Bool(false),
                 "name" := Str("Estelle Getty"), "is_facilitator" := Bool(false)]]
  {
    var betty := map["online_at" := Int(987), "is_typing" := Bool(true), "user_id" := Int(1)];
    var estelle := map["online_at" := Int(123), "is_typing" := Bool(false), "user_id" := Int(3)];
    var users := map[1 := User(1, "Betty White"), 2 := User(2, "Rue McClanahan"), 3 := User(3, "Estelle Getty")];
    var state := UsersById.State(UsersById.Retro(Int(1)), [betty, estelle], users);
    assert UsersById.Resolves(betty, users) && UsersById.UserOf(betty, users) == User(1, "Betty White");
    assert UsersById.Resolves(estelle, users) && UsersById.UserOf(estelle, users) == User(3, "Estelle Getty");
    assert UsersById.AllResolve(state.presences, users);
    TwoPresenceEntries(state);
    BettyWhiteEntry();
    EstelleGettyEntry();
  }

  /** The current user's presence for token "hErOboy" is Estelle Getty's, flagged as facilitator. */
  lemma CurrentUserPresenceExample()
    ensures var state := UsersById.State(
              UsersById.Retro(Int(3)),
              [map["token" := Str("hErOboy"), "online_at" := Int(15), "user_id" := Int(3)]],
              map[2 := User(2, "Rue McClanahan"), 3 := User(3, "Estelle Getty")]);
      UsersById.CurrentUserPresence(state, "hErOboy")
      == Some(map["id" := Int(3), "is_facilitator" := Bool(true), "name" := Str("Estelle Getty"),
                  "online_at" := Int(15), "token" := Str("hErOboy")])
  {
    EstelleGettyTokenEntry();
  }

  /** A committed submission on the empty list gives the one-idea list. */
  lemma SubmissionExample()
    ensures Ideas.Reducer(None, IdeaSubmissionCommitted(map["id" := Int(1), "body" := Str("x")]))
         == [map["id" := Int(1), "body" := Str("x")]]
  {
  }

  /** The optimistic deletion flag is set, and a rejection resets it with the idea still listed. */
  lemma DeletionRejectedExample()
    ensures var idea := map["id" := Int(5), "deletionSubmitted" := Bool(false)];
      && Ideas.Reduce([idea], Ideas.UpdateIdea(Int(5), Ideas.DeletionPending()))
         == [map["id" := Int(5), "deletionSubmitted" := Bool(true)]]
      && Ideas.ReduceAll([idea], Ideas.DeletionTrace(Int(5), Error(map[]))) == [idea]
  {
    var idea := map["id" := Int(5), "deletionSubmitted" := Bool(false)];
    var flagged := map["id" := Int(5), "deletionSubmitted" := Bool(true)];
    assert Merge(idea, Ideas.DeletionPending()).Keys == flagged.Keys;
    assert Merge(idea, Ideas.DeletionPending()) == flagged;
    Ideas.DeletionRejectionUndoesPending([idea], Int(5), map[]);
    assert Merge(idea, Ideas.DeletionReset()).Keys == idea.Keys;
    assert Merge(idea, Ideas.DeletionReset()) == idea;
  }
}
