/** The context-object flavour of `use_state` (hooks.py). The hook context
    itself lives in a module that is not part of this model; `HookContext`
    gives its three operations the behaviour the dictionary-based engine has
    (component.py:83-92, 99): a hook cursor that starts at -1 and moves on by
    one per hook call, and a slot store read with a default that is then
    written back. */
module Hooks {
  import opened Slots

  class HookContext {
    /** The last hook index handed out in the current render; -1 before any. */
    var hookIndex: int
    /** The hook slots. */
    var state: map<int, Value>
    /** How many rerenders `set_state` has asked for. */
    var rerenders: nat

    constructor ()
      ensures hookIndex == -1 && state == map[] && rerenders == 0
    {
      hookIndex := -1;
      state := map[];
      rerenders := 0;
    }

    /** The start of a render of the owning component: the hook cursor is
        cleared (component.py:52); the slots are kept. */
    method StartRender()
      modifies this`hookIndex
      ensures hookIndex == -1
    {
      hookIndex := -1;
    }

    /** `next_hook_index()`: the index after the last one handed out, which
        becomes the last one handed out (component.py:83-84). */
    method NextHookIndex() returns (index: int)
      modifies this`hookIndex
      ensures index == old(hookIndex) + 1 && hookIndex == index
    {
      index := hookIndex + 1;
      hookIndex := index;
    }

    /** `get_state(index, default)`: the value in the slot, or `default` when
        the slot is empty; the slot holds the returned value afterwards
        (component.py:87-92). */
    method GetState(index: int, default: Value) returns (value: Value)
      modifies this`state
      ensures value == StateGet(old(state), index, default)
      ensures state == Claim(old(state), index, default)
    {
      value := StateGet(state, index, default);
      state := state[index := value];
    }

    /** `set_state(index, value)`: overwrite the slot and ask for a rerender
        (component.py:99-100). */
    method SetState(index: int, value: Value)
      modifies this`state, this`rerenders
      ensures state == old(state)[index := value]
      ensures rerenders == old(rerenders) + 1
    {
      state := state[index := value];
      rerenders := rerenders + 1;
    }
  }

  /** The `set_value` closure: the context and hook index it captured. */
  datatype HookSetter = HookSetter(context: HookContext, index: int)

  /** `use_state(initial_value)` (hooks.py:4-17) against the context that
      `_get_context()` returns, passed in here: claims exactly the next hook
      index, reads that slot with `init` as default and returns a setter
      bound to the same context and index. */
  method UseState(context: HookContext, init: Value) returns (value: Value, setter: HookSetter)
    modifies context
    ensures context.hookIndex == old(context.hookIndex) + 1
    ensures value == StateGet(old(context.state), context.hookIndex, init)
    ensures context.state == Claim(old(context.state), context.hookIndex, init)
    ensures context.rerenders == old(context.rerenders)
    ensures setter == HookSetter(context, context.hookIndex)
  {
    var index := context.NextHookIndex();
    value := context.GetState(index, init);
    setter := HookSetter(context, index);
  }

  /** `set_value(new_value)` (hooks.py:12-15): one `set_state` at the
      captured index of the captured context; the hook cursor is untouched. */
  method SetValue(setter: HookSetter, v: Value)
    modifies setter.context
    ensures setter.context.state == old(setter.context.state)[setter.index := v]
    ensures setter.context.rerenders == old(setter.context.rerenders) + 1
    ensures setter.context.hookIndex == old(setter.context.hookIndex)
  {
    setter.context.SetState(setter.index, v);
  }
}
