# deephaven-plugin-ui hook engine, in Dafny

A model of the React-like hook and child-context bookkeeping of
deephaven-plugin-ui, with proofs about it.

- `component.py` has a `component` decorator. Its `render` closure gives every
  component call a position (a child index) inside the current parent context.
  It reuses the child context already stored at that position, or creates an
  empty one. It installs one shared top-level `rerender` entry and runs the
  wrapped function through a `rerender` closure. That closure clears the
  child's hook and child counters, makes the child current while the function
  runs, and then makes the parent current again.
- `use_state` hands out sequential hook indices in the current context. It
  claims a slot in the context's `state` dictionary without overwriting an
  existing value. It returns a setter that writes that one slot and calls the
  shared rerender entry.
- A module-level listener list is notified after every top-level rerender.
- `hooks.py` is a refactored `use_state` that goes through a context object
  (`next_hook_index`, `get_state`, `set_state`).

Files:

- `slots.dfy` — module `Slots`: state values and the slot claim shared by both
  flavours.
- `component.dfy` — module `Component`.
  - Contexts live in an arena `map<CtxId, Ctx>` on class `Engine`. A `CtxId`
    stands for a Python dictionary's identity, and `Engine.next` hands out
    identities for freshly created dictionaries.
  - The wrapped user function is a script of steps (`Func`, `Step`): a
    `use_state` call or a call of another component. `Rerender` interprets it
    step by step.
  - The invariant `Wf` holds the following:
    - every child is created after its parent;
    - every child shares its parent's rerender entry, and that entry is
      installed;
    - no context sits at two (parent, position) pairs;
    - every installed entry points at a live (parent, position, child) triple.
- `hooks.py` is modelled in module `Hooks` (file `hooks.dfy`). The context class
  is class `HookContext`, with the dictionary engine's semantics.
- `scenarios.dfy` — module `Scenarios`: client methods on freshly allocated
  engines, proved from the engine contracts alone.

Specification functions. These have no contract beyond a length bound; the lemmas and
methods in the table below are stated in their terms.

- `Slots.StateGet`: `state.get(hook_index, initial_value)`, the stored value
  or the default (component.py:91).
- `Component.Fresh`: a freshly created `{}`: no counters, no slots, no
  children and no rerender entry (component.py:3, 9, 42, 45).
- `Component.HooksIn`, `Component.CallsIn`: how many `use_state` calls and
  component calls a prefix of a body makes, that is, the hook index and the
  child index the next step gets (component.py:38, 83).
- `Component.Claimed`: the `state` dictionary after the `use_state` calls of a
  prefix have each claimed their slot (component.py:87-92).
- `Component.Notifications`: the listener calls of one
  `_notify_listener_updated` (component.py:12-14).
- `Component.Installed`: the parent's rerender entry after "install if absent"
  (component.py:66-71).
- `Component.NextChild`, `Component.StartOf`: the context a component call
  uses at the next child position, and the entry it starts its render from
  (component.py:38-47, 73).
- `Component.AdoptFresh`: the arena after a fresh child was attached at an
  unused position (component.py:41-47, 66-73).
- `Component.Wf`: the arena invariant above. `Component.Grows`: no context
  disappears and no child position changes its context.
  `Component.Hangs`: a set of contexts lies in the subtree of a root.
- `Component.OutputOk`, `Component.RenderedUpTo`, `Component.Rendered`: what
  one step, a prefix and a whole body of a render output and leave in the
  context. `Component.ChildDone`: a call step's child rendered its whole body
  from its stored context. `Component.Pending`: the child positions a render
  has not reached yet are as they were. `Component.StepConfined`: what one
  step may change besides its own context: nothing for a `use_state` step,
  the reported child's subtree for a component call (component.py:38-75, 83-92).

What is given as a parameter instead of modelled:

- The listener callables are listener ids, and each call is recorded in
  `Engine.notified`.
- The rerender entry a setter calls is recorded in `Engine.rerenderCalls`, not
  interpreted. `ToplevelRerender` is that entry run as a separate operation.
- `_get_context()` in hooks.py is the `context` parameter of `Hooks.UseState`.

A later design of this engine uses an explicit `start_render` call and
per-subscription callbacks instead of a process-wide listener list. That is
not what `component.py` does, and the model follows `component.py`.

Behaviour of the code, modelled as written:

- The root context's child counter is only reset by a `rerender` of that
  context, and the root has none. So successive top-level renders take child
  indices 0, 1, 2, … of the root, each with a fresh context.
- `RERENDER_KEY` is installed on a parent only when it is absent. A second
  top-level component therefore gets the first one's top-level rerender, and
  its setter rerenders the first component (`Scenarios.SecondTopLevelScenario`).
- `use_state` outside every component works on the root context. Before the
  first top-level render the root has no rerender entry, so its setter writes
  the slot, then calls `None`. That call is the error outcome `ok == false` of
  `Engine.SetValue`, and the write has already happened
  (`Scenarios.OutsideComponentScenario`). After a top-level render the root
  holds that component's `toplevel_rerender`, and a setter made at the root
  calls it (`Engine.UseState` captures the root's entry).
- The write-back `child_contexts[child_index] = current_context` (component.py:60)
  puts the same object back at the same position, so the arena is unchanged.
  `Rerender` proves this.

## Model

| member | source | states |
|---|---|---|
| Slots.Claim | src/deephaven/ui/component.py:87-92 | the slot keeps an existing value, gets the default when it was empty, holds the value that was read afterwards; every other slot is unchanged and at most the key `index` is added |
| Component.ClaimedSlots | src/deephaven/ui/component.py:83-92 | after a body's `use_state` calls the slots are exactly the old ones plus indices 0 .. n-1 (n = number of calls); old slot values are never overwritten |
| Component.ClaimedHolds | src/deephaven/ui/component.py:87-92 | after the render, the slot claimed by step i holds what `use_state` returned at step i: the old slot value or the step's initial value |
| Component.HookIndicesDistinct | src/deephaven/ui/component.py:83-84 | the `use_state` calls of one render get strictly increasing hook indices, all below the number of calls |
| Component.HookIndicesOnto | src/deephaven/ui/component.py:83-84 | every index 0 .. n-1 is the hook index of some `use_state` step: indices are consecutive from 0 |
| Component.CallIndicesDistinct | src/deephaven/ui/component.py:38-41 | the component calls of one render get strictly increasing child indices, all below the number of calls; call step i reports the child at index `CallsIn(body[..i])` (`OutputOk`), so distinct calls report distinct positions |
| Component.CallIndicesOnto | src/deephaven/ui/component.py:38-41 | every child index 0 .. n-1 belongs to some component call step: child indices are consecutive from 0, and every position a render fills is reported by one call step |
| Component.NotificationsAt | src/deephaven/ui/component.py:12-14 | one notification per registered listener, the i-th for the i-th listener, all with the same component and result |
| Component.NotificationsSnoc | src/deephaven/ui/component.py:12-18 | registering one more listener adds exactly one call, after all earlier ones |
| Component.WfAddFresh | src/deephaven/ui/component.py:7-9 | adding a fresh empty context and making it current keeps the arena invariant |
| Component.WfKeepsShape | src/deephaven/ui/component.py:52-53 | changing only a context's counters or slots keeps the arena invariant |
| Component.AdoptFreshChildren | src/deephaven/ui/component.py:41-47 | attaching a fresh child at an unused position keeps every child younger than its parent and sharing its installed rerender entry |
| Component.AdoptFreshOwned | src/deephaven/ui/component.py:45-47 | after attaching a fresh child, still no context sits at two (parent, position) pairs |
| Component.AdoptFreshRerenders | src/deephaven/ui/component.py:66-73 | after installing the entry only if absent and copying it to the child, every installed entry, the new closure included, points at a live (parent, position, child) |
| Component.AdoptFreshWf | src/deephaven/ui/component.py:41-73 | attaching a fresh child and installing the entry keeps the whole arena invariant |
| Component.StepHook | src/deephaven/ui/component.py:83-95 | one `use_state` step advances the hook counter by one, claims exactly that slot and outputs the stored-or-initial value with a setter for that slot and the context's entry |
| Component.GrowsTrans | src/deephaven/ui/component.py:45-47 | "no context disappears and no child position changes its context" composes over successive operations |
| Component.HangsGrow | src/deephaven/ui/component.py:45-47 | a subtree stays a subtree while the arena grows |
| Component.HangsUnion | src/deephaven/ui/component.py:50-61 | the subtrees touched by two steps of one render together still hang from the rendered context |
| Component.HangsGraft | src/deephaven/ui/component.py:45-47 | the subtree of the child at one position, with the parent added, hangs from the parent |
| Component.HangsAbove | src/deephaven/ui/component.py:45 | every context in a subtree was created no earlier than the subtree's root |
| Component.SiblingOutside | src/deephaven/ui/component.py:45-46 | no other child of the same parent lies in the subtree of one child: a render of one child cannot reach its siblings |
| Component.SiblingKept | src/deephaven/ui/component.py:45-60 | a render confined to the subtree of the child at one position keeps every other position's context and its contents |
| Component.ChildDoneRebase | src/deephaven/ui/component.py:41-47 | what a child was rendered from depends only on contexts younger than the parent, so the parent's own update by `render` does not change it |
| Component.CallDone | src/deephaven/ui/component.py:45-58 | the child rendered by call step i started from its context as stored when the parent's render began, or from a fresh one |
| Component.HookKeepsChildren | src/deephaven/ui/component.py:83-92 | a `use_state` step keeps the positions not reached yet and what the children already rendered report |
| Component.CallKeepsChildren | src/deephaven/ui/component.py:38-60 | a component-call step keeps the later positions not reached yet and what the earlier children report |
| Component.StepCall | src/deephaven/ui/component.py:38-47 | one component-call step advances the child counter by one and fills exactly that position, with the old context or a newly created one, and outputs the result of the child held at that position |
| Component.Engine.constructor | src/deephaven/ui/component.py:3-4 | the engine starts with one empty current context and no listeners |
| Component.Engine.ResetState | src/deephaven/ui/component.py:7-9 | the current context becomes a newly created empty context; no existing context changes |
| Component.Engine.AddComponentListener | src/deephaven/ui/component.py:17-18 | the listener is appended at the end |
| Component.Engine.NotifyListenerUpdated | src/deephaven/ui/component.py:12-14 | the calls made are exactly one per listener, in registration order, with the same component and result |
| Component.Engine.UseState | src/deephaven/ui/component.py:80-95 | the current context's hook counter moves on by one; that slot is claimed and nothing else changes; the value is the stored-or-initial one; the setter captures the context, the index and the context's rerender entry |
| Component.Engine.SetValue | src/deephaven/ui/component.py:97-100 | exactly the captured slot of the captured context is overwritten, nothing else in any context changes, and the captured entry is called exactly once (an error when there is none) |
| Component.Engine.Adopt | src/deephaven/ui/component.py:35-73 | the parent's child counter moves on by one; the context at that position is reused, or a fresh one is created only when the position was never used; the entry is installed only if absent and copied to the child; the arena invariant is kept |
| Component.Engine.Render | src/deephaven/ui/component.py:31-75 | the parent changes only in its child counter, that one position and the entry installed if absent; the child renders starting from its context as stored at that position, or from a fresh one when the position was never used; each component call of the child's body reports the grandchild at the matching position, rendered from that grandchild's stored context; nothing outside the parent and the subtree `touched` hanging from the child changes; the current context is the same afterwards |
| Component.Engine.Rerender | src/deephaven/ui/component.py:50-63 | the counters restart, so the k-th hook gets index k and its slot value and the k-th call gets child position k; each call step reports the child at its position, rendered from that child's context as it was before this render; the whole body runs in the context's own entry, which is current while it runs; afterwards the parent is current; nothing outside the subtree `touched` hanging from the context changes, and no older context changes |
| Component.Engine.RenderStep | src/deephaven/ui/component.py:58 | one step of the body runs with the child context current: the rendered prefix grows by one step, the positions not reached yet are as they were, the children already rendered keep their reports, and nothing outside the own context and the set `sub` changes, where `sub` is empty for a `use_state` step and lies in the subtree of the reported child for a call step (`StepConfined`) |
| Component.Engine.HookStep | src/deephaven/ui/component.py:80-95 | a `use_state` step changes only the own context (`sub` is empty) and extends the rendered prefix by its hook output |
| Component.Engine.CallStep | src/deephaven/ui/component.py:31-75 | a component-call step renders the child at the next position from its stored context (or a fresh one), reports that child, and changes nothing outside the own context and the set `sub`, which lies in the reported child's subtree |
| Component.Engine.ToplevelRerender | src/deephaven/ui/component.py:67-69 | the component is rerendered as by `Rerender`: the body runs from the context's current state, each component it calls directly is rendered from that child's stored context, and nothing outside its subtree `touched` changes; then every listener is notified once, in order, with the component and the new result |
| Hooks.HookContext.constructor | src/deephaven/ui/component.py:83-88 | a new context has no hook handed out (cursor -1) and no slots |
| Hooks.HookContext.StartRender | src/deephaven/ui/component.py:52 | the hook cursor is cleared; the slots are kept |
| Hooks.HookContext.NextHookIndex | src/deephaven/ui/component.py:83-84 | returns the cursor plus one and stores it as the new cursor |
| Hooks.HookContext.GetState | src/deephaven/ui/component.py:87-92 | returns the stored value or the default; the slot holds the returned value afterwards |
| Hooks.HookContext.SetState | src/deephaven/ui/component.py:99-100 | overwrites exactly that slot and asks for one rerender |
| Hooks.UseState | src/deephaven/ui/hooks.py:4-17 | claims exactly one hook index (the next one); returns that slot's stored-or-initial value and a setter bound to the same context and index; asks for no rerender |
| Hooks.SetValue | src/deephaven/ui/hooks.py:12-15 | writes the captured slot of the captured context, also after the render; does not move the hook cursor |
| Scenarios.CounterOutput | src/deephaven/ui/component.py:83-95 | whatever state a counter renders from, its one output is slot 0's stored value (or 0) with a setter for slot 0 of its own context and its entry, and slot 0 then holds that value |
| Scenarios.ParentChild | src/deephaven/ui/component.py:38-58 | a parent rendered with one call reports the child at its position 0 (the stored one, or a new one), and that child's output is the counter output computed from its stored context |
| Scenarios.CounterScenario | src/deephaven/ui/component.py:66-100 | a counter renders 0; its setter asks for the counter's own entry; running that entry renders 5 in the same context and notifies the listener once |
| Scenarios.SecondTopLevelScenario | src/deephaven/ui/component.py:66-73 | a second top-level component gets a new context and its initial value, but the first component's rerender entry |
| Scenarios.SiblingUntouchedScenario | src/deephaven/ui/component.py:38-47 | rendering a second counter at the root leaves the first counter's context exactly as its own render left it |
| Scenarios.RerenderIsolationScenario | src/deephaven/ui/component.py:66-69 | the first counter's setter and rerender entry leave the second counter's context unchanged |
| Scenarios.NestedScenario | src/deephaven/ui/component.py:38-58 | a parent's output for its component call is the child at the parent's child position 0, rendered from a fresh context: initial value, setter for that child and the shared top-level entry |
| Scenarios.NestedSetterScenario | src/deephaven/ui/component.py:66-100 | a parent with one counter child: the counter's setter writes 5, its entry rerenders the parent, and the one listener receives the parent's result in which the counter, at the same context as in the first render (`firstOut.ctx`), shows 5 |
| Scenarios.OutsideComponentScenario | src/deephaven/ui/component.py:95-100 | `use_state` at the root reads the initial value; its setter writes the slot, then fails because there is no entry to call |
| Scenarios.HookContextScenario | src/deephaven/ui/hooks.py:4-17 | two hooks get indices 0 and 1; after a setter call, the next render gives them the same indices, the written value and the kept one |

## Left out

- Python keyword arguments and the real body of the wrapped function. A body is a fixed script of `use_state` and component calls; arguments and conditional hooks are not modelled.
- Exceptions. A body that raises leaves the current context pointing at the child (component.py:58-61). The model has no raising steps.
- Reentrancy. A setter's call of its rerender entry is recorded, not run inside the setter. A rerender started while another render is in progress is not modelled.
- Component.Engine.Render: the contract describes the render of the child and of each component the child calls directly (`ChildDone`). Components further down are described by their own `Render` contracts, which the parent's contract does not repeat.
- Component.Engine.Rerender: as for `Render`, only the direct children's renders are stated in the contract.
- Component.Engine.ToplevelRerender: as for `Rerender`, only the direct children's renders are stated in the contract.
- Component.Engine.ToplevelRerender: the component reported to the listeners is the wrapped function (`Func`), standing for its `render` closure. The stored entry is modelled as the `rerender` closure it wraps.
- Hooks.HookContext: the context class of hooks.py is not part of this model. It is given the dictionary engine's cursor and slot semantics. `_get_context()` becomes a parameter.
- src/deephaven/ui/__init__.py is not part of this model: plugin registration, message transport, JSON encoding and the widget plumbing.
- Commented-out debug prints.
