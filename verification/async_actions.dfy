/** The user-fetch flow of asyncActions.js: a `{loading, users, error}`
    record driven by three action types, and the deferred action
    `fetchUsers`, which dispatches a request action and then exactly one
    terminal action once the network outcome is known. */
module AsyncActions {
  import opened Undefinable

  const FETCH_USERS_REQUEST: string := "FETCH_USERS_REQUEST"
  const FETCH_USERS_SUCCESS: string := "FETCH_USERS_SUCCESS"
  const FETCH_USERS_FAILURE: string := "FETCH_USERS_FAILURE"

  predicate Handled(tag: string)
  {
    tag == FETCH_USERS_REQUEST || tag == FETCH_USERS_SUCCESS || tag == FETCH_USERS_FAILURE
  }

  /** A `type` string the reducer's `switch` has no case for. */
  type UnhandledTag = t: string | !Handled(t) witness ""

  /** The identifier field of a fetched user record. */
  type UserId = int

  /** One record of the fetched collection, reduced to the one field the
      mapping reads. */
  datatype UserRecord = UserRecord(id: UserId)

  datatype FetchState = FetchState(loading: bool, users: seq<UserId>, error: string)

  const InitialState := FetchState(false, [], "")

  /** A plain action of this store; each `type` string corresponds to
      exactly one constructor (see `TypeOfInjective`). */
  datatype FetchAction =
    | Request
    | Success(users: seq<UserId>)
    | Failure(message: string)
    | Unhandled(tag: UnhandledTag)

  /** The `type` field the reducer switches on. */
  function TypeOf(a: FetchAction): string
  {
    match a
    case Request => FETCH_USERS_REQUEST
    case Success(_) => FETCH_USERS_SUCCESS
    case Failure(_) => FETCH_USERS_FAILURE
    case Unhandled(t) => t
  }

  /** Every action's tag is handled, except exactly the `Unhandled` ones,
      and two actions of the same tag differ only in their payload. */
  lemma TypeOfInjective(a: FetchAction, b: FetchAction)
    ensures Handled(TypeOf(a)) <==> !a.Unhandled?
    ensures TypeOf(a) == TypeOf(b) <==>
              (a.Request? && b.Request?) || (a.Success? && b.Success?)
              || (a.Failure? && b.Failure?) || (a.Unhandled? && b.Unhandled? && a.tag == b.tag)
  {
  }

  /** The action creator `fetchUsersRequest`. */
  function FetchUsersRequest(): (a: FetchAction)
    ensures TypeOf(a) == FETCH_USERS_REQUEST
  {
    Request
  }

  /** The action creator `fetchUsersSuccess`: the payload is the given list. */
  function FetchUsersSuccess(users: seq<UserId>): (a: FetchAction)
    ensures TypeOf(a) == FETCH_USERS_SUCCESS
    ensures a.Success? && a.users == users
  {
    Success(users)
  }

  /** The action creator `fetchUsersFailure`: the payload is the message. */
  function FetchUsersFailure(message: string): (a: FetchAction)
    ensures TypeOf(a) == FETCH_USERS_FAILURE
    ensures a.Failure? && a.message == message
  {
    Failure(message)
  }

  /** `reducer`: an absent state defaults to `InitialState`. A request sets
      `loading` and keeps the rest; success and failure each fix the whole
      record whatever came before. The `switch` has no `default`, so any
      other type yields `undefined`. */
  function Reducer(state: Maybe<FetchState>, a: FetchAction): (r: Maybe<FetchState>)
    ensures r.Defined? <==> Handled(TypeOf(a))
    ensures TypeOf(a) == FETCH_USERS_REQUEST ==>
              r.Defined? && r.value.loading
              && r.value.users == state.OrElse(InitialState).users
              && r.value.error == state.OrElse(InitialState).error
    ensures TypeOf(a) == FETCH_USERS_SUCCESS ==>
              r.Defined? && !r.value.loading && r.value.error == ""
              && a.Success? && r.value.users == a.users
    ensures TypeOf(a) == FETCH_USERS_FAILURE ==>
              r.Defined? && !r.value.loading && r.value.users == []
              && a.Failure? && r.value.error == a.message
  {
    var s := state.OrElse(InitialState);
    match a
    case Request => Defined(s.(loading := true))
    case Success(users) => Defined(FetchState(false, users, ""))
    case Failure(message) => Defined(FetchState(false, [], message))
    case Unhandled(_) => Undefined
  }

  /** The default parameter: handing the reducer `undefined` is the same as
      handing it `initialState`. */
  lemma AbsentStateDefaults(a: FetchAction)
    ensures Reducer(Undefined, a) == Reducer(Defined(InitialState), a)
  {
  }

  /** The state after dispatching `actions` in order from `state`: a left
      fold of the reducer, where an `undefined` result is what the next
      dispatch receives. Whether the store ends up defined is decided by
      the last action alone: defined exactly when its type is handled. */
  function Run(state: Maybe<FetchState>, actions: seq<FetchAction>): (r: Maybe<FetchState>)
    ensures actions == [] ==> r == state
    ensures actions != [] ==> (r.Defined? <==> Handled(TypeOf(actions[|actions| - 1])))
    decreases |actions|
  {
    if actions == [] then state
    else Run(Reducer(state, actions[0]), actions[1..])
  }

  /** The states a subscriber observes: the state after each dispatch, one
      per action, defined exactly after the actions whose type is handled. */
  function Trace(state: Maybe<FetchState>, actions: seq<FetchAction>): (r: seq<Maybe<FetchState>>)
    ensures |r| == |actions|
    ensures forall i :: 0 <= i < |actions| ==> (r[i].Defined? <==> Handled(TypeOf(actions[i])))
    decreases |actions|
  {
    if actions == [] then []
    else var next := Reducer(state, actions[0]);
         [next] + Trace(next, actions[1..])
  }

  /** The trace has one entry per dispatch, entry `i` is the fold of the
      first `i + 1` actions, so its last entry is the final state. */
  lemma {:induction false} TraceIsRunPrefixes(state: Maybe<FetchState>, actions: seq<FetchAction>)
    ensures |Trace(state, actions)| == |actions|
    ensures forall i :: 0 <= i < |actions| ==>
              Trace(state, actions)[i] == Run(state, actions[..i + 1])
    decreases |actions|
  {
    if actions != [] {
      var next := Reducer(state, actions[0]);
      TraceIsRunPrefixes(next, actions[1..]);
      forall i | 0 <= i < |actions|
        ensures Trace(state, actions)[i] == Run(state, actions[..i + 1])
      {
        assert actions[..i + 1][0] == actions[0];
        assert actions[..i + 1][1..] == actions[1..][..i];
        if i > 0 {
          assert Trace(state, actions)[i] == Trace(next, actions[1..])[i - 1];
        } else {
          assert actions[1..][..0] == [];
        }
      }
    }
  }

  /** The outcome of the HTTP GET: the fetched records, or the error's
      message. */
  datatype Outcome = Ok(records: seq<UserRecord>) | Err(message: string)

  /** `res.data.map((user) => user.id)`: the ids, one per record, in order. */
  function Ids(records: seq<UserRecord>): (ids: seq<UserId>)
    ensures |ids| == |records|
    ensures forall i :: 0 <= i < |records| ==> ids[i] == records[i].id
  {
    if records == [] then []
    else [records[0].id] + Ids(records[1..])
  }

  /** The deferred action `fetchUsers()` run against one network outcome:
      the plain actions it dispatches, in order. It always dispatches a
      request first and then exactly one terminal action: success with the
      record ids on `Ok`, failure with the message on `Err`. */
  function FetchUsers(outcome: Outcome): (dispatched: seq<FetchAction>)
    ensures |dispatched| == 2
    ensures TypeOf(dispatched[0]) == FETCH_USERS_REQUEST
    ensures TypeOf(dispatched[1]) == FETCH_USERS_SUCCESS <==> outcome.Ok?
    ensures TypeOf(dispatched[1]) == FETCH_USERS_FAILURE <==> outcome.Err?
    ensures outcome.Ok? ==>
              dispatched[1].Success?
              && |dispatched[1].users| == |outcome.records|
              && forall i :: 0 <= i < |outcome.records| ==>
                   dispatched[1].users[i] == outcome.records[i].id
    ensures outcome.Err? ==> dispatched[1].Failure? && dispatched[1].message == outcome.message
  {
    var terminal :=
      match outcome
      case Ok(records) => FetchUsersSuccess(Ids(records))
      case Err(message) => FetchUsersFailure(message);
    [FetchUsersRequest(), terminal]
  }

  /** Where a run of `fetchUsers` ends, whatever state the store held: not
      loading; on success the ids of the records in order and no error, on
      failure no users and the error's message. */
  function Terminal(outcome: Outcome): (r: FetchState)
    ensures !r.loading
    ensures outcome.Ok? ==>
              r.error == "" && |r.users| == |outcome.records|
              && forall i :: 0 <= i < |outcome.records| ==> r.users[i] == outcome.records[i].id
    ensures outcome.Err? ==> r.users == [] && r.error == outcome.message
  {
    match outcome
    case Ok(records) => FetchState(false, Ids(records), "")
    case Err(message) => FetchState(false, [], message)
  }

  /** After its request, a run of `fetchUsers` is loading and still shows the
      users and error the store held before. */
  lemma FetchUsersRequested(state: Maybe<FetchState>, outcome: Outcome)
    ensures Run(state, FetchUsers(outcome)[..1])
            == Defined(state.OrElse(InitialState).(loading := true))
  {
  }

  /** Folding the dispatches of `fetchUsers` from any state, even an absent
      one, ends not loading: with the ids and no error on success, with no
      users and the message on failure. */
  lemma FetchUsersTerminal(state: Maybe<FetchState>, outcome: Outcome)
    ensures Run(state, FetchUsers(outcome)) == Defined(Terminal(outcome))
    ensures !Terminal(outcome).loading
    ensures outcome.Ok? ==>
              Terminal(outcome).error == ""
              && |Terminal(outcome).users| == |outcome.records|
              && forall i :: 0 <= i < |outcome.records| ==>
                   Terminal(outcome).users[i] == outcome.records[i].id
    ensures outcome.Err? ==>
              Terminal(outcome).users == [] && Terminal(outcome).error == outcome.message
  {
    var ds := FetchUsers(outcome);
    var requested := Reducer(state, ds[0]);
    assert ds[1..] == [ds[1]];
    assert Run(state, ds) == Run(requested, [ds[1]]);
    assert Run(requested, [ds[1]]) == Run(Reducer(requested, ds[1]), []);
  }

  /** The type of the action the store dispatches to itself on creation
      (redux appends a random suffix, which the reducer never matches). */
  const InitTag: UnhandledTag := "@@redux/INIT"

  /** `createStore(reducer, ...)` followed by `dispatch(fetchUsers())`: the
      store starts `undefined`, because the reducer has no default case,
      then a subscriber sees the request state built from `initialState`
      and then the terminal state. */
  lemma Script(outcome: Outcome)
    ensures Run(Undefined, [Unhandled(InitTag)]) == Undefined
    ensures Trace(Undefined, [Unhandled(InitTag)] + FetchUsers(outcome))
            == [Undefined, Defined(FetchState(true, [], "")), Defined(Terminal(outcome))]
  {
    var ds := FetchUsers(outcome);
    var actions := [Unhandled(InitTag)] + ds;
    assert actions[0] == Unhandled(InitTag) && actions[1..] == ds;
    var requested := Reducer(Undefined, ds[0]);
    assert requested == Defined(FetchState(true, [], ""));
    assert ds[1..] == [ds[1]];
    assert Reducer(requested, ds[1]) == Defined(Terminal(outcome));
    assert Trace(requested, [ds[1]]) == [Defined(Terminal(outcome))] + Trace(Reducer(requested, ds[1]), []);
    assert Trace(Undefined, ds) == [requested] + Trace(requested, [ds[1]]);
  }

  /** The failure path with the message "Network Error". */
  lemma ScriptNetworkError()
    ensures Run(Undefined, [Unhandled(InitTag)] + FetchUsers(Err("Network Error")))
            == Defined(FetchState(false, [], "Network Error"))
  {
    var actions := [Unhandled(InitTag)] + FetchUsers(Err("Network Error"));
    assert actions[1..] == FetchUsers(Err("Network Error"));
    FetchUsersTerminal(Undefined, Err("Network Error"));
  }
}
