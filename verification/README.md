# learning-redux, modelled in Dafny

This project models the two scripts of the learning-redux repository as pure
functions and proves what their reducers and their deferred action promise.

- `Shop` (`shop.dfy`, from `index.js`) covers the synchronous store. It has a
  cake slice `{numOfCakes}` and an ice-cream slice `{numOfIceCreams}`. Each
  slice has its own reducer and its own action type (`BUY_CAKE`,
  `BUY_ICECREAM`). The slices are combined into a root reducer with the
  `combineReducers` contract: each slice is reduced from its own prior
  value. The store's state after a series of dispatches is the left fold of
  the root reducer, starting from the state the store builds when it is
  created.
- `AsyncActions` (`async_actions.dfy`, from `asyncActions.js`) covers the
  user-fetch flow. A `{loading, users, error}` record is driven by the
  `FETCH_USERS_REQUEST`, `FETCH_USERS_SUCCESS` and `FETCH_USERS_FAILURE`
  actions. The deferred action `fetchUsers` is a function from the network
  outcome (`Ok(records)` or `Err(message)`) to the plain actions it
  dispatches.
- `Undefinable` (`undefinable.dfy`) supplies `Maybe`. Its `Undefined` stands
  for JavaScript's `undefined`: an absent state that a default parameter
  replaces, or the result of a `switch` that has no matching case.

Action types are strings in the source. Each action datatype keeps a catch-all
case whose tag is restricted to the strings the reducers do not handle, so
every type string corresponds to exactly one constructor, and in `Shop` to
exactly one action (`TypeOfInjective`). The
contracts are stated in terms of the type string (`TypeOf`), which is what
the source's `switch` statements test.

Counts are unbounded `int`s. `BUY_CAKE` past zero yields negative counts,
exactly as the source does, because it has no clamp.

The `reducer` in asyncActions.js has no `default` branch. An unrecognised
action therefore yields `undefined` (`Undefined`), and the model keeps that
behaviour. One consequence is that the store starts out `undefined`: the
store's own initialising action matches no case. So the store does not start
at `{loading: false, users: [], error: ""}`, as one might expect; the model
follows the code here (`AsyncActions.Script`). The first
request still starts from `initialState`, because the default parameter
replaces the `undefined` state.

## Model

| member | source | states |
|---|---|---|
| Shop.TypeOfInjective | index.js:8-9 | two actions are equal exactly when their type strings are equal |
| Shop.BuyCakeAction | index.js:12-18 | `buyCake()` produces an action of type `BUY_CAKE` |
| Shop.BuyIceCreamAction | index.js:20-26 | `buyIceCream()` produces an action of type `BUY_ICECREAM` |
| Shop.CakeReducer | index.js:60-70 | an absent slice defaults to 10 cakes; `BUY_CAKE` lowers the count by exactly one, with no clamp; any other type returns the prior slice unchanged |
| Shop.IceCreamReducer | index.js:71-81 | an absent slice defaults to 20 ice creams; `BUY_ICECREAM` lowers the count by exactly one, with no clamp; any other type returns the prior slice unchanged |
| Shop.RootReducer | index.js:83-86 | each slice's count drops by one exactly on its own action type; the cake slice is unchanged if and only if the type is not `BUY_CAKE`, and likewise the ice-cream slice for `BUY_ICECREAM`; an unhandled action returns the prior state |
| Shop.CakeSlice | index.js:83-86 | the cake reducer is handed `state.cake`, which is undefined exactly when the whole state is |
| Shop.IceCreamSlice | index.js:83-86 | the ice-cream reducer is handed `state.iceCream`, which is undefined exactly when the whole state is |
| Shop.InitialState | index.js:34-40 | creating the store (root reducer on an absent state and the init action) yields `{cake: {numOfCakes: 10}, iceCream: {numOfIceCreams: 20}}` |
| Shop.Run | index.js:92-96 | dispatching a sequence from any state never raises a count, and a sequence of only unhandled actions leaves the state unchanged |
| Shop.StoreRun | index.js:87-96 | a freshly created store never holds more than 10 cakes or 20 ice creams, and stays at `{10, 20}` while only unhandled actions are dispatched |
| Shop.RunAppend | index.js:92-96 | running two action sequences one after the other equals running their concatenation |
| Shop.DispatchStep | index.js:92-96 | each further dispatch applies the root reducer once to the state left by the earlier ones |
| Shop.RunCounts | index.js:60-86 | from any state, any action sequence lowers `numOfCakes` by the number of `BUY_CAKE` actions and `numOfIceCreams` by the number of `BUY_ICECREAM` actions |
| Shop.StoreRunCounts | index.js:83-96 | from a fresh store, the state is `{numOfCakes: 10 - #BUY_CAKE}` and `{numOfIceCreams: 20 - #BUY_ICECREAM}` |
| Shop.StoreRunWithinExactRange | index.js:65 | from a fresh store, any run of at most 2^53 actions keeps both counts between -2^53 and their initial values, where JavaScript's number subtraction is exact |
| Shop.SlicesIndependent | index.js:83-86 | two states that agree on one slice still agree on it after any action sequence, so one slice's updates never depend on or alter the other |
| Shop.Script | index.js:92-96 | three `buyCake()` then two `buyIceCream()` end at 7 cakes and 18 ice creams |
| AsyncActions.TypeOfInjective | asyncActions.js:13-15 | only the catch-all actions have unhandled types, and two actions share a type exactly when they share a constructor |
| AsyncActions.FetchUsersRequest | asyncActions.js:18-22 | the request creator produces type `FETCH_USERS_REQUEST` |
| AsyncActions.FetchUsersSuccess | asyncActions.js:24-29 | the success creator produces type `FETCH_USERS_SUCCESS` with the given users as payload |
| AsyncActions.FetchUsersFailure | asyncActions.js:31-36 | the failure creator produces type `FETCH_USERS_FAILURE` with the given message as payload |
| AsyncActions.Reducer | asyncActions.js:39-59 | a state results if and only if the type is one of the three handled ones; a request sets `loading` and keeps `users` and `error`; success gives `{false, payload, ""}` and failure gives `{false, [], payload}` whatever the prior state |
| AsyncActions.AbsentStateDefaults | asyncActions.js:39 | an `undefined` state is treated as `initialState` for every action |
| AsyncActions.Run | asyncActions.js:85-89 | dispatching nothing leaves the state as it was; otherwise the store ends defined exactly when the last action's type is handled |
| AsyncActions.Trace | asyncActions.js:86-88 | the subscriber sees one state per dispatch, defined exactly after the actions whose type is handled |
| AsyncActions.TraceIsRunPrefixes | asyncActions.js:85-88 | the subscriber sees one state per dispatch, and the i-th is the fold of the first i+1 actions |
| AsyncActions.Ids | asyncActions.js:75 | the mapped ids have the records' length and order: entry i is the id of record i |
| AsyncActions.FetchUsers | asyncActions.js:65-83 | the deferred action dispatches exactly two actions: a request, then success with the record ids on `Ok` or failure with the unchanged message on `Err` |
| AsyncActions.FetchUsersRequested | asyncActions.js:69-70 | after its first dispatch, `loading` is true and `users` and `error` are those of the prior (or initial) state |
| AsyncActions.Terminal | asyncActions.js:46-57 | the end state of a fetch is not loading; on success it holds the record ids in order and no error, on failure no users and the message |
| AsyncActions.FetchUsersTerminal | asyncActions.js:39-81 | from any state, even an absent one, the run ends with `loading` false; on success `users` holds the ids and `error` is empty; on failure `users` is empty and `error` is the message |
| AsyncActions.Script | asyncActions.js:85-89 | after creation the store is `undefined`; the subscriber then sees `{true, [], ""}` and then the terminal state |
| AsyncActions.ScriptNetworkError | asyncActions.js:78-81 | a rejection with "Network Error" ends at `{loading: false, users: [], error: "Network Error"}` |

## Left out

- The redux store itself is not modelled: `createStore`, `getState`, `subscribe` and unsubscribe, and `applyMiddleware` with its middleware chain. Only the fold semantics the scripts rely on is kept.
- The random suffix on redux's initialising action type is not modelled. The model uses the fixed tag `@@redux/INIT`, and no reducer here matches any init type.
- `combineReducers`' development-time shape checks are not modelled. They never fire for these two reducers, because both return their state for unknown actions.
- The `redux-logger` middleware and the `console.log` subscribers are not modelled. They are console output only.
- The `axios` GET and promise scheduling are replaced by an explicit `Outcome` parameter. Several thunks in flight, and the interleaving of their terminal dispatches, are not modelled.
- An exception thrown by `dispatch(fetchUsersSuccess(users))` itself is not modelled, for example from a throwing subscriber. The following `.catch` would then dispatch a failure after the success, a third action. `FetchUsers` always dispatches exactly two. (A throw from `res.data.map` is covered: it gives request then failure, which is `FetchUsers(Err(message))`.)
- The inert `info` strings on the cake and ice-cream actions are not modelled.
- The commented-out single reducer and initial state in index.js are dead code and are not modelled.
- Shop.CakeReducer: counts are unbounded integers, but the source's counts are IEEE doubles, for which `n - 1` is inexact beyond 2^53 in absolute value. The exact count laws hold only while counts stay within that range. Any run of at most 2^53 actions from the 10/20 initial state does (`Shop.StoreRunWithinExactRange`).
- Shop.IceCreamReducer: counts are unbounded integers rather than doubles, for the same reason and with the same range as the cake reducer.
- Shop.RunCounts: holds exactly for integer counts. For doubles, it holds only while every intermediate count stays within 2^53 of zero.
- AsyncActions.Ids: ids are taken to be integers that every record has. In the source, `user.id` may be any JSON value, or `undefined` when the field is missing.
- JavaScript object identity is not modelled: "returns the same state" is value equality here.
