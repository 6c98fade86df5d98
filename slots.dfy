/** The hook slot store: the per-context `state` dictionary that `use_state`
    reads and writes, addressed by hook index. Shared by the model of
    component.py (module Component) and of hooks.py (module Hooks). */
module Slots {

  /** A state value held in a hook slot. The engine never inspects values;
      a few client-serializable shapes are enough to write scenarios. */
  datatype Value = Null | Int(i: int) | Str(s: string)

  datatype Option<+T> = None | Some(value: T)

  /** `state.get(index, default)`. */
  function StateGet(state: map<int, Value>, index: int, default: Value): Value
  {
    if index in state then state[index] else default
  }

  /** The slot claim of `use_state`: read the slot with `default` as fallback
      and store what was read back into the slot. An existing slot is never
      overwritten; afterwards the slot holds the value that was returned. */
  function Claim(state: map<int, Value>, index: int, default: Value): (r: map<int, Value>)
    ensures r.Keys == state.Keys + {index}
    ensures r[index] == StateGet(state, index, default)
    ensures forall k :: k in state ==> r[k] == state[k]
    ensures index !in state ==> r[index] == default
  {
    state[index := StateGet(state, index, default)]
  }
}
