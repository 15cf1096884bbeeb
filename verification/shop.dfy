/** The synchronous cake / ice-cream store of index.js: two counter slices,
    each owned by its own reducer, combined into one root reducer, and a
    store whose state is the left fold of that root reducer over the
    dispatched actions. */
module Shop {
  import opened Undefinable

  const BUY_CAKE: string := "BUY_CAKE"
  const BUY_ICECREAM: string := "BUY_ICECREAM"

  /** A `type` string that neither slice reducer handles. */
  type ForeignTag = t: string | t != BUY_CAKE && t != BUY_ICECREAM witness ""

  /** A plain action. Keeping foreign tags apart from the two handled ones
      makes every `type` string correspond to exactly one action (see
      `TypeOfInjective`); the inert `info` field is not modelled. */
  datatype Action = BuyCake | BuyIceCream | Other(tag: ForeignTag)

  /** The `type` field the reducers switch on. */
  function TypeOf(a: Action): string
  {
    match a
    case BuyCake => BUY_CAKE
    case BuyIceCream => BUY_ICECREAM
    case Other(t) => t
  }

  /** Two actions are equal exactly when their `type` strings are, so
      switching on the constructor is switching on the string. */
  lemma TypeOfInjective(a: Action, b: Action)
    ensures TypeOf(a) == TypeOf(b) <==> a == b
  {
  }

  /** The action creator `buyCake`. */
  function BuyCakeAction(): (a: Action)
    ensures TypeOf(a) == BUY_CAKE
  {
    BuyCake
  }

  /** The action creator `buyIceCream`. */
  function BuyIceCreamAction(): (a: Action)
    ensures TypeOf(a) == BUY_ICECREAM
  {
    BuyIceCream
  }

  // Counts are plain integers: the reducers never clamp at zero.
  datatype CakeState = CakeState(numOfCakes: int)
  datatype IceCreamState = IceCreamState(numOfIceCreams: int)

  const InitialCakeState := CakeState(10)
  const InitialIceCreamState := IceCreamState(20)

  /** `cakeReducer`: an absent slice defaults to `InitialCakeState`; a
      `BUY_CAKE` action removes exactly one cake, every other action leaves
      the slice as it was. */
  function CakeReducer(state: Maybe<CakeState>, a: Action): (r: CakeState)
    ensures TypeOf(a) == BUY_CAKE ==>
              r.numOfCakes == state.OrElse(InitialCakeState).numOfCakes - 1
    ensures TypeOf(a) != BUY_CAKE ==> r == state.OrElse(InitialCakeState)
  {
    var s := state.OrElse(InitialCakeState);
    match a
    case BuyCake => s.(numOfCakes := s.numOfCakes - 1)
    case _ => s
  }

  /** `iceCreamReducer`: the same shape as `CakeReducer` for its own slice
      and its own action type. */
  function IceCreamReducer(state: Maybe<IceCreamState>, a: Action): (r: IceCreamState)
    ensures TypeOf(a) == BUY_ICECREAM ==>
              r.numOfIceCreams == state.OrElse(InitialIceCreamState).numOfIceCreams - 1
    ensures TypeOf(a) != BUY_ICECREAM ==> r == state.OrElse(InitialIceCreamState)
  {
    var s := state.OrElse(InitialIceCreamState);
    match a
    case BuyIceCream => s.(numOfIceCreams := s.numOfIceCreams - 1)
    case _ => s
  }

  /** The combined state `{cake, iceCream}`. */
  datatype RootState = RootState(cake: CakeState, iceCream: IceCreamState)

  /** `state.cake`, the value a combined reducer hands to the cake reducer:
      a combined reducer reads its slices from `{}` when the whole state is
      `undefined`, so the slice is undefined exactly then. */
  function CakeSlice(state: Maybe<RootState>): (r: Maybe<CakeState>)
    ensures r.Defined? <==> state.Defined?
    ensures r.Defined? ==> r.value == state.value.cake
  {
    match state
    case Defined(s) => Defined(s.cake)
    case Undefined => Undefined
  }

  /** `state.iceCream`, handed to the ice-cream reducer in the same way. */
  function IceCreamSlice(state: Maybe<RootState>): (r: Maybe<IceCreamState>)
    ensures r.Defined? <==> state.Defined?
    ensures r.Defined? ==> r.value == state.value.iceCream
  {
    match state
    case Defined(s) => Defined(s.iceCream)
    case Undefined => Undefined
  }

  /** `rootReducer`, built by combining the two slice reducers: each slice is
      reduced by its own reducer from its own prior value. The cake slice
      moves only on `BUY_CAKE`, the ice-cream slice only on `BUY_ICECREAM`,
      and an action neither handles returns the prior state itself. */
  function RootReducer(state: Maybe<RootState>, a: Action): (r: RootState)
    ensures r.cake.numOfCakes ==
              CakeSlice(state).OrElse(InitialCakeState).numOfCakes
              - (if TypeOf(a) == BUY_CAKE then 1 else 0)
    ensures r.iceCream.numOfIceCreams ==
              IceCreamSlice(state).OrElse(InitialIceCreamState).numOfIceCreams
              - (if TypeOf(a) == BUY_ICECREAM then 1 else 0)
    ensures state.Defined? ==> (r.cake == state.value.cake <==> TypeOf(a) != BUY_CAKE)
    ensures state.Defined? ==>
              (r.iceCream == state.value.iceCream <==> TypeOf(a) != BUY_ICECREAM)
    ensures state.Defined? && a.Other? ==> r == state.value
  {
    RootState(CakeReducer(CakeSlice(state), a), IceCreamReducer(IceCreamSlice(state), a))
  }

  /** The type of the action the store dispatches to itself on creation
      (redux appends a random suffix, which no reducer here looks at). */
  const InitTag: ForeignTag := "@@redux/INIT"

  /** The state `createStore(rootReducer)` starts from: the root reducer
      applied to an absent state and the store's own initialising action. */
  function InitialState(): (r: RootState)
    ensures r == RootState(CakeState(10), IceCreamState(20))
  {
    RootReducer(Undefined, Other(InitTag))
  }

  /** The state after dispatching `actions` in order, starting from `s`: a
      left fold of the root reducer. Counts never grow, and a run of
      actions neither reducer handles leaves the state as it was. */
  function Run(s: RootState, actions: seq<Action>): (r: RootState)
    ensures r.cake.numOfCakes <= s.cake.numOfCakes
    ensures r.iceCream.numOfIceCreams <= s.iceCream.numOfIceCreams
    ensures (forall i :: 0 <= i < |actions| ==> actions[i].Other?) ==> r == s
    decreases |actions|
  {
    if actions == [] then s
    else Run(RootReducer(Defined(s), actions[0]), actions[1..])
  }

  /** The state of a freshly created store after dispatching `actions`:
      never more than 10 cakes or 20 ice creams, and the initial state when
      nothing but foreign actions is dispatched. */
  function StoreRun(actions: seq<Action>): (r: RootState)
    ensures r.cake.numOfCakes <= 10 && r.iceCream.numOfIceCreams <= 20
    ensures (forall i :: 0 <= i < |actions| ==> actions[i].Other?) ==>
              r == RootState(CakeState(10), IceCreamState(20))
  {
    Run(InitialState(), actions)
  }

  /** How many of `actions` carry the type `tag`. */
  function Count(actions: seq<Action>, tag: string): (n: nat)
    ensures n <= |actions|
  {
    if actions == [] then 0
    else (if TypeOf(actions[0]) == tag then 1 else 0) + Count(actions[1..], tag)
  }

  /** Dispatching one action after a run is the same as running the longer
      sequence: the store's state after each dispatch is the fold so far. */
  lemma {:induction false} RunAppend(s: RootState, xs: seq<Action>, ys: seq<Action>)
    ensures Run(s, xs + ys) == Run(Run(s, xs), ys)
    decreases |xs|
  {
    if xs == [] {
      assert xs + ys == ys;
    } else {
      assert (xs + ys)[0] == xs[0];
      assert (xs + ys)[1..] == xs[1..] + ys;
      RunAppend(RootReducer(Defined(s), xs[0]), xs[1..], ys);
    }
  }

  /** One more dispatch applies the root reducer once more to the state the
      previous dispatches left. */
  lemma DispatchStep(s: RootState, actions: seq<Action>, a: Action)
    ensures Run(s, actions + [a]) == RootReducer(Defined(Run(s, actions)), a)
  {
    RunAppend(s, actions, [a]);
    assert Run(Run(s, actions), [a]) == Run(RootReducer(Defined(Run(s, actions)), a), []);
  }

  /** Each `BUY_CAKE` removes one cake and each `BUY_ICECREAM` one ice cream,
      whatever the order and whatever else is dispatched; nothing clamps. */
  lemma {:induction false} RunCounts(s: RootState, actions: seq<Action>)
    ensures Run(s, actions).cake.numOfCakes == s.cake.numOfCakes - Count(actions, BUY_CAKE)
    ensures Run(s, actions).iceCream.numOfIceCreams ==
              s.iceCream.numOfIceCreams - Count(actions, BUY_ICECREAM)
    decreases |actions|
  {
    if actions != [] {
      RunCounts(RootReducer(Defined(s), actions[0]), actions[1..]);
    }
  }

  /** From a fresh store: `numOfCakes = 10 - #BUY_CAKE` and
      `numOfIceCreams = 20 - #BUY_ICECREAM`. */
  lemma StoreRunCounts(actions: seq<Action>)
    ensures StoreRun(actions) ==
              RootState(CakeState(10 - Count(actions, BUY_CAKE)),
                        IceCreamState(20 - Count(actions, BUY_ICECREAM)))
  {
    RunCounts(InitialState(), actions);
  }

  /** A slice evolves independently of the other: two states that agree on a
      slice still agree on it after any sequence of dispatches. */
  lemma {:induction false} SlicesIndependent(s1: RootState, s2: RootState, actions: seq<Action>)
    ensures s1.cake == s2.cake ==> Run(s1, actions).cake == Run(s2, actions).cake
    ensures s1.iceCream == s2.iceCream ==>
              Run(s1, actions).iceCream == Run(s2, actions).iceCream
    decreases |actions|
  {
    if actions != [] {
      SlicesIndependent(RootReducer(Defined(s1), actions[0]),
                        RootReducer(Defined(s2), actions[0]), actions[1..]);
    }
  }

  /** The script at the end of index.js: three `buyCake()` then two
      `buyIceCream()` leave 7 cakes and 18 ice creams. */
  lemma Script()
    ensures StoreRun([BuyCakeAction(), BuyCakeAction(), BuyCakeAction(),
                      BuyIceCreamAction(), BuyIceCreamAction()])
            == RootState(CakeState(7), IceCreamState(18))
  {
    var actions := [BuyCakeAction(), BuyCakeAction(), BuyCakeAction(),
                    BuyIceCreamAction(), BuyIceCreamAction()];
    StoreRunCounts(actions);
    assert actions[1..][1..][1..][1..][1..] == [];
    assert Count(actions, BUY_CAKE) == 3;
    assert Count(actions, BUY_ICECREAM) == 2;
  }

  /** The largest integer up to which every integer is an IEEE double:
      JavaScript's `Number.MAX_SAFE_INTEGER + 1`, that is 2^53. */
  const EXACT_LIMIT: int := 0x20_0000_0000_0000

  /** The source's counts are JavaScript numbers, and `n - 1` is exact while
      the result stays within 2^53 of zero. From a fresh store, any run of
      up to 2^53 actions keeps both counts in that range, so the integer
      counts of this model agree with the source's doubles there. */
  lemma StoreRunWithinExactRange(actions: seq<Action>)
    requires |actions| <= EXACT_LIMIT
    ensures -EXACT_LIMIT <= StoreRun(actions).cake.numOfCakes <= 10
    ensures -EXACT_LIMIT <= StoreRun(actions).iceCream.numOfIceCreams <= 20
  {
    StoreRunCounts(actions);
  }
}
