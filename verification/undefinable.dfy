/** JavaScript's `undefined`, made explicit. A reducer may be handed an
    `Undefined` state, which its default parameter replaces, and a `switch`
    with no matching case and no `default` returns `Undefined`. */
module Undefinable {

  datatype Maybe<T> = Undefined | Defined(value: T) {

    /** What a default parameter `x = fallback` binds for this argument. */
    function OrElse(fallback: T): T
    {
      if Defined? then value else fallback
    }
  }
}
