/**
 * `useControllableState`: a value that is either owned by the parent (the
 * `prop` it passes, "controlled") or kept inside the hook (seeded from
 * `defaultProp`, "uncontrolled"), with an `onChange` callback told about
 * changes. The hook's instance lives across renders, so it is a class whose
 * fields are the React state, the ref and the props of the latest render;
 * `calls` logs every value `onChange` has been called with.
 */
module ControllableState {
  import opened Text

  /** What `setValue` is given: a value, or an updater applied to the current value. */
  datatype Next<!T> = Value(v: T) | Updater(f: Option<T> -> T)

  /** The new value `next` produces from `current`. */
  function Apply<T>(next: Next<T>, current: Option<T>): T {
    match next
    case Value(v) => v
    case Updater(f) => f(current)
  }

  class Hook<T(==)> {
    /** `prop` of the latest render; `None` is `undefined`. */
    var prop: Option<T>
    /** Whether the latest render passed an `onChange`. */
    var hasOnChange: bool
    /** The `useState` value of `useUncontrolledState`. */
    var state: Option<T>
    /** `prevValueRef.current`. */
    var prevValue: Option<T>
    /** The arguments of every `onChange` call so far, oldest first. */
    var calls: seq<Option<T>>

    /** The effect has caught up with the state: the ref holds the state. */
    predicate Settled()
      reads this
    {
      prevValue == state
    }

    predicate IsControlled()
      reads this
    {
      prop.Some?
    }

    /** The value the hook returns: `prop` when controlled, the state otherwise. */
    function Current(): Option<T>
      reads this
    {
      if IsControlled() then prop else state
    }

    /** The first render: the state and the ref start at `defaultProp`. */
    constructor(prop: Option<T>, defaultProp: Option<T>, hasOnChange: bool)
      ensures this.prop == prop && this.hasOnChange == hasOnChange
      ensures state == defaultProp && calls == []
      ensures Settled()
      ensures prop.Some? ==> Current() == prop
      ensures prop.None? ==> Current() == defaultProp
    {
      this.prop := prop;
      this.hasOnChange := hasOnChange;
      state := defaultProp;
      prevValue := defaultProp;
      calls := [];
    }

    /**
     * A later render with new props. The state and the ref are kept, so a
     * controlled value follows `prop` and an uncontrolled one stays put.
     */
    method Rerender(prop: Option<T>, hasOnChange: bool)
      modifies this
      ensures this.prop == prop && this.hasOnChange == hasOnChange
      ensures state == old(state) && prevValue == old(prevValue) && calls == old(calls)
      ensures prop.Some? ==> Current() == prop
      ensures prop.None? ==> Current() == old(state)
    {
      this.prop := prop;
      this.hasOnChange := hasOnChange;
    }

    /** The `useState` setter: an updater sees the previous state. */
    method SetState(next: Next<T>)
      modifies this
      ensures state == Some(Apply(next, old(state)))
      ensures prop == old(prop) && hasOnChange == old(hasOnChange)
      ensures prevValue == old(prevValue) && calls == old(calls)
    {
      state := Some(Apply(next, state));
    }

    /**
     * The effect of `useUncontrolledState`: when the state differs from the
     * ref, `onChange` (if any) is called with it and the ref catches up;
     * otherwise nothing happens.
     */
    method RunEffect()
      modifies this
      ensures Settled()
      ensures state == old(state) && prop == old(prop) && hasOnChange == old(hasOnChange)
      ensures calls == if old(prevValue) != state && hasOnChange
                       then old(calls) + [state] else old(calls)
    {
      if prevValue != state {
        if hasOnChange {
          calls := calls + [state];
        }
        prevValue := state;
      }
    }

    /**
     * `setValue`. Controlled: the new value is computed from `prop` and
     * reported to `onChange` only when it differs from `prop`; the hook's own
     * state is left alone, so the value changes only when the parent renders
     * a new `prop`. Uncontrolled: the state is replaced (an updater sees the
     * previous state) and the effect reports it when it differs from the last
     * reported value.
     */
    method SetValue(next: Next<T>)
      requires Settled()
      modifies this
      ensures Settled()
      ensures prop == old(prop) && hasOnChange == old(hasOnChange)
      ensures old(IsControlled()) ==>
        state == old(state) && Current() == old(Current())
        && calls == if hasOnChange && Apply(next, prop) != prop.value
                    then old(calls) + [Some(Apply(next, prop))] else old(calls)
      ensures !old(IsControlled()) ==>
        state == Some(Apply(next, old(state))) && Current() == state
        && calls == if hasOnChange && state != old(state)
                    then old(calls) + [state] else old(calls)
    {
      if prop.Some? {
        var newValue := Apply(next, prop);
        if newValue != prop.value && hasOnChange {
          calls := calls + [Some(newValue)];
        }
      } else {
        SetState(next);
        RunEffect();
      }
    }
  }
}
