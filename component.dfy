/** Model of src/deephaven/ui/component.py: the `component` decorator's
    `render` / `rerender` / `toplevel_rerender` closures, `use_state` and its
    setter, and the module-level listener list.

    Every Python context dictionary lives in an arena `map<CtxId, Ctx>`; a
    `CtxId` plays the part of the dictionary's object identity, and `next`
    hands out identities for dictionaries created fresh (`{}`). The wrapped
    user function `func(**kwargs)` is a script of steps that the engine
    interprets: a `use_state` call or a call of another component. */
module Component {
  import opened Slots

  type CtxId = nat
  type ListenerId = nat

  /** One statement of a component's body, as far as the engine can see it. */
  datatype Step = UseState(init: Value) | Call(func: Func)

  /** A function wrapped by `component`; `name` stands for its identity
      (the `render` closure that is handed to the listeners). */
  datatype Func = Func(name: string, body: seq<Step>)

  /** The `rerender` closure built by one call of `render`: it captures the
      function, the parent context, the child index and the child context.
      The value stored under `RERENDER_KEY` is the `toplevel_rerender` that
      wraps one of these closures. */
  datatype Closure = Closure(func: Func, parent: CtxId, index: int, ctx: CtxId)

  /** The `set_value` closure of one `use_state` call: the context whose
      `state` dictionary it captured, the hook index and the rerender entry. */
  datatype Setter = Setter(ctx: CtxId, index: int, rerender: Option<Closure>)

  /** What a body returns, one entry per step: a `use_state` pair, or the
      result of a child component together with the context that child
      instance was rendered in. */
  datatype Out = Hook(value: Value, setter: Setter) | Child(ctx: CtxId, result: seq<Out>)

  /** A context dictionary. An absent `_hook_index` / `_child_index` key reads
      as -1 (`.get(KEY, -1)`), an absent `_state` / `_child_context` key as an
      empty map and an absent `_rerender` key as `None`. */
  datatype Ctx = Ctx(hookIndex: int, childIndex: int, state: map<int, Value>,
                     children: map<int, CtxId>, rerender: Option<Closure>)

  /** A freshly created `{}`. */
  const Fresh := Ctx(-1, -1, map[], map[], None)

  /** One call `listener(component, result)`. */
  datatype Notification = Notification(listener: ListenerId, component: Func, result: seq<Out>)

  // ---------------------------------------------------------------------
  // Counting the steps of a body

  /** Number of `use_state` calls in `steps`. */
  function HooksIn(steps: seq<Step>): (n: nat)
    ensures n <= |steps|
  {
    if steps == [] then 0
    else HooksIn(steps[..|steps| - 1]) + (if steps[|steps| - 1].UseState? then 1 else 0)
  }

  /** Number of component calls in `steps`. */
  function CallsIn(steps: seq<Step>): (n: nat)
    ensures n <= |steps|
  {
    if steps == [] then 0
    else CallsIn(steps[..|steps| - 1]) + (if steps[|steps| - 1].Call? then 1 else 0)
  }

  /** The `state` dictionary after the `use_state` calls of `steps` have
      each claimed their slot, starting from `state`. */
  function Claimed(state: map<int, Value>, steps: seq<Step>): map<int, Value>
  {
    if steps == [] then state
    else
      var before := steps[..|steps| - 1];
      match steps[|steps| - 1]
      case UseState(init) => Claim(Claimed(state, before), HooksIn(before), init)
      case Call(_) => Claimed(state, before)
  }

  /** Unfolds the three functions above by one step of a body. */
  lemma PrefixStep(steps: seq<Step>, i: nat, state: map<int, Value>)
    requires i < |steps|
    ensures HooksIn(steps[..i + 1]) == HooksIn(steps[..i]) + (if steps[i].UseState? then 1 else 0)
    ensures CallsIn(steps[..i + 1]) == CallsIn(steps[..i]) + (if steps[i].Call? then 1 else 0)
    ensures Claimed(state, steps[..i + 1]) ==
            if steps[i].UseState? then Claim(Claimed(state, steps[..i]), HooksIn(steps[..i]), steps[i].init)
            else Claimed(state, steps[..i])
  {
    assert steps[..i + 1][..i] == steps[..i];
  }

  /** A render never removes or overwrites a slot: the slots afterwards are the
      old ones plus one per `use_state` call, numbered from 0. */
  lemma {:induction false} ClaimedSlots(state: map<int, Value>, steps: seq<Step>)
    ensures forall k :: k in Claimed(state, steps) <==> k in state || 0 <= k < HooksIn(steps)
    ensures forall k :: k in state ==> Claimed(state, steps)[k] == state[k]
  {
    if steps != [] {
      ClaimedSlots(state, steps[..|steps| - 1]);
    }
  }

  /** After the render, the slot claimed by the i-th step holds the value that
      `use_state` returned at that step: the old slot value, or the step's
      initial value when there was none. */
  lemma {:induction false} ClaimedHolds(state: map<int, Value>, steps: seq<Step>, i: nat)
    requires i < |steps| && steps[i].UseState?
    ensures HooksIn(steps[..i]) in Claimed(state, steps)
    ensures Claimed(state, steps)[HooksIn(steps[..i])] == StateGet(state, HooksIn(steps[..i]), steps[i].init)
  {
    var before := steps[..|steps| - 1];
    var k := HooksIn(steps[..i]);
    if i == |steps| - 1 {
      ClaimedSlots(state, before);
    } else {
      assert before[..i] == steps[..i];
      ClaimedHolds(state, before, i);
    }
  }

  /** Counting prefixes is monotone. */
  lemma {:induction false} HooksMonotone(steps: seq<Step>, i: nat, j: nat)
    requires i <= j <= |steps|
    ensures HooksIn(steps[..i]) <= HooksIn(steps[..j])
    decreases j - i
  {
    if i < j {
      PrefixStep(steps, j - 1, map[]);
      HooksMonotone(steps, i, j - 1);
    }
  }

  /** Within one render the `use_state` calls receive distinct hook indices,
      in increasing order, all below the number of calls. */
  lemma HookIndicesDistinct(steps: seq<Step>, i: nat, j: nat)
    requires i < j <= |steps| && steps[i].UseState?
    ensures HooksIn(steps[..i]) < HooksIn(steps[..j]) <= HooksIn(steps)
  {
    PrefixStep(steps, i, map[]);
    HooksMonotone(steps, i + 1, j);
    HooksMonotone(steps, j, |steps|);
    assert steps[..|steps|] == steps;
  }

  /** Every index 0 .. HooksIn(steps)-1 is the hook index of exactly one
      `use_state` step: the indices of one render are consecutive from 0. */
  lemma {:induction false} HookIndicesOnto(steps: seq<Step>, k: int)
    requires 0 <= k < HooksIn(steps)
    ensures exists i :: 0 <= i < |steps| && steps[i].UseState? && HooksIn(steps[..i]) == k
  {
    var last := |steps| - 1;
    var before := steps[..last];
    PrefixStep(steps, last, map[]);
    assert steps[..last + 1] == steps;
    if k < HooksIn(before) {
      HookIndicesOnto(before, k);
      var i :| 0 <= i < |before| && before[i].UseState? && HooksIn(before[..i]) == k;
      assert before[..i] == steps[..i];
      assert steps[i].UseState? && HooksIn(steps[..i]) == k;
    } else {
      assert steps[last].UseState? && HooksIn(steps[..last]) == k;
    }
  }

  /** Counting component calls over prefixes is monotone. */
  lemma {:induction false} CallsMonotone(steps: seq<Step>, i: nat, j: nat)
    requires i <= j <= |steps|
    ensures CallsIn(steps[..i]) <= CallsIn(steps[..j])
    decreases j - i
  {
    if i < j {
      PrefixStep(steps, j - 1, map[]);
      CallsMonotone(steps, i, j - 1);
    }
  }

  /** Within one render the component calls receive distinct child indices,
      in increasing order, all below the number of calls. */
  lemma CallIndicesDistinct(steps: seq<Step>, i: nat, j: nat)
    requires i < j <= |steps| && steps[i].Call?
    ensures CallsIn(steps[..i]) < CallsIn(steps[..j]) <= CallsIn(steps)
  {
    PrefixStep(steps, i, map[]);
    CallsMonotone(steps, i + 1, j);
    CallsMonotone(steps, j, |steps|);
    assert steps[..|steps|] == steps;
  }

  /** Every index 0 .. CallsIn(steps)-1 is the child index of a component
      call step: the child indices of one render are consecutive from 0. */
  lemma {:induction false} CallIndicesOnto(steps: seq<Step>, k: int)
    requires 0 <= k < CallsIn(steps)
    ensures exists i :: 0 <= i < |steps| && steps[i].Call? && CallsIn(steps[..i]) == k
  {
    var last := |steps| - 1;
    var before := steps[..last];
    PrefixStep(steps, last, map[]);
    assert steps[..last + 1] == steps;
    if k < CallsIn(before) {
      CallIndicesOnto(before, k);
      var i :| 0 <= i < |before| && before[i].Call? && CallsIn(before[..i]) == k;
      assert before[..i] == steps[..i];
      assert steps[i].Call? && CallsIn(steps[..i]) == k;
    } else {
      assert steps[last].Call? && CallsIn(steps[..last]) == k;
    }
  }

  // ---------------------------------------------------------------------
  // Listener notification

  /** The calls made by `_notify_listener_updated(component, result)`. */
  function Notifications(listeners: seq<ListenerId>, component: Func, result: seq<Out>): seq<Notification>
  {
    if listeners == [] then []
    else [Notification(listeners[0], component, result)] + Notifications(listeners[1..], component, result)
  }

  /** Every registered listener is called exactly once, in registration
      order, with the same component and result. */
  lemma {:induction false} NotificationsAt(listeners: seq<ListenerId>, component: Func, result: seq<Out>)
    ensures |Notifications(listeners, component, result)| == |listeners|
    ensures forall i :: 0 <= i < |listeners| ==>
              Notifications(listeners, component, result)[i] == Notification(listeners[i], component, result)
  {
    if listeners != [] {
      NotificationsAt(listeners[1..], component, result);
    }
  }

  /** Registering one more listener adds exactly one call, at the end. */
  lemma {:induction false} NotificationsSnoc(listeners: seq<ListenerId>, l: ListenerId, component: Func, result: seq<Out>)
    ensures Notifications(listeners + [l], component, result) ==
            Notifications(listeners, component, result) + [Notification(l, component, result)]
  {
    if listeners != [] {
      assert (listeners + [l])[1..] == listeners[1..] + [l];
      NotificationsSnoc(listeners[1..], l, component, result);
    }
  }

  // ---------------------------------------------------------------------
  // Well-formedness of the context arena

  /** A rerender closure is live: its parent still maps its child index to its
      context, and the context is younger than the parent. */
  ghost predicate ClosureOk(arena: map<CtxId, Ctx>, t: Closure)
  {
    t.parent in arena && t.ctx in arena && t.parent < t.ctx
    && t.index in arena[t.parent].children && arena[t.parent].children[t.index] == t.ctx
  }

  /** `c` may be a child of `p`: created after it, and sharing its (installed)
      top-level rerender. */
  ghost predicate ChildOk(arena: map<CtxId, Ctx>, p: CtxId, c: CtxId)
    requires p in arena
  {
    c in arena && p < c && arena[p].rerender.Some? && arena[c].rerender == arena[p].rerender
  }

  /** The context at position `k` of `p`'s child map. The quantifiers below
      are triggered on this function only, so they are instantiated where a
      proof names a child explicitly. */
  ghost function Kid(arena: map<CtxId, Ctx>, p: CtxId, k: int): CtxId
    requires p in arena && k in arena[p].children
  {
    arena[p].children[k]
  }

  ghost predicate ChildrenOk(arena: map<CtxId, Ctx>)
  {
    forall p, k {:trigger Kid(arena, p, k)} ::
      p in arena && k in arena[p].children ==> ChildOk(arena, p, Kid(arena, p, k))
  }

  /** Each context is owned by at most one (parent, position) pair. */
  ghost predicate Owned(arena: map<CtxId, Ctx>)
  {
    forall p, j, q, k {:trigger Kid(arena, p, j), Kid(arena, q, k)} ::
      (p in arena && q in arena && j in arena[p].children && k in arena[q].children &&
       Kid(arena, p, j) == Kid(arena, q, k)) ==> p == q && j == k
  }

  /** The rerender entry of context `id`. */
  ghost function EntryOf(arena: map<CtxId, Ctx>, id: CtxId): Option<Closure>
    requires id in arena
  {
    arena[id].rerender
  }

  /** Every installed rerender entry is live. */
  ghost predicate RerendersOk(arena: map<CtxId, Ctx>)
  {
    forall id {:trigger EntryOf(arena, id)} ::
      id in arena && EntryOf(arena, id).Some? ==> ClosureOk(arena, EntryOf(arena, id).value)
  }

  ghost predicate Wf(arena: map<CtxId, Ctx>, current: CtxId, next: CtxId)
  {
    current in arena
    && (forall id :: id in arena ==> id < next)
    && ChildrenOk(arena)
    && Owned(arena)
    && RerendersOk(arena)
  }

  /** Adding a fresh, unattached context keeps the arena well formed. */
  lemma WfAddFresh(arena: map<CtxId, Ctx>, current: CtxId, next: CtxId)
    requires Wf(arena, current, next)
    ensures Wf(arena[next := Fresh], next, next + 1)
  {
    var a := arena[next := Fresh];
    assert next !in arena;
    assert ChildrenOk(a) by {
      forall p, k | p in a && k in a[p].children ensures ChildOk(a, p, Kid(a, p, k)) {
        assert ChildOk(arena, p, Kid(arena, p, k));
      }
    }
    assert Owned(a) by {
      forall p, j, q, k | p in a && q in a && j in a[p].children && k in a[q].children &&
                          Kid(a, p, j) == Kid(a, q, k)
        ensures p == q && j == k
      {
        assert Kid(arena, p, j) == Kid(arena, q, k);
      }
    }
    assert RerendersOk(a) by {
      forall q | q in a && EntryOf(a, q).Some? ensures ClosureOk(a, EntryOf(a, q).value) {
        assert ClosureOk(arena, EntryOf(arena, q).value);
      }
    }
  }

  /** Changing a context's counters or slots keeps the arena well formed. */
  lemma WfKeepsShape(arena: map<CtxId, Ctx>, current: CtxId, next: CtxId, id: CtxId, c: Ctx)
    requires Wf(arena, current, next) && id in arena
    requires c.children == arena[id].children && c.rerender == arena[id].rerender
    ensures Wf(arena[id := c], current, next)
    ensures Grows(arena, arena[id := c])
  {
    var a := arena[id := c];
    forall p, k | p in arena && k in arena[p].children ensures k in a[p].children && Kid(a, p, k) == Kid(arena, p, k) {
    }
    assert forall q :: q in a ==> a[q].children == arena[q].children && a[q].rerender == arena[q].rerender;
    assert ChildrenOk(a) by {
      forall p, k | p in a && k in a[p].children ensures ChildOk(a, p, Kid(a, p, k)) {
        assert ChildOk(arena, p, Kid(arena, p, k));
      }
    }
    assert Owned(a) by {
      forall p, j, q, k | p in a && q in a && j in a[p].children && k in a[q].children &&
                          Kid(a, p, j) == Kid(a, q, k)
        ensures p == q && j == k
      {
        assert Kid(arena, p, j) == Kid(arena, q, k);
      }
    }
    assert RerendersOk(a) by {
      forall q | q in a && EntryOf(a, q).Some? ensures ClosureOk(a, EntryOf(a, q).value) {
        assert ClosureOk(arena, EntryOf(arena, q).value);
      }
    }
  }

  /** The rerender entry a parent holds once `render` has run under it: its
      own if it had one, else the new closure (component.py:66-71). */
  function Installed(pc: Ctx, t: Closure): Option<Closure>
  {
    if pc.rerender.Some? then pc.rerender else Some(t)
  }

  /** The context `render` uses at the next child position of parent entry
      `p`: the one already stored there, or the identity `newId` of a new one
      (component.py:41-47). */
  function NextChild(p: Ctx, newId: CtxId): CtxId
  {
    if p.childIndex + 1 in p.children then p.children[p.childIndex + 1] else newId
  }

  /** The entry child context `c` starts its render from: as stored in
      `arena`, or an empty one when it is new, with the rerender entry `rr`
      handed down by its parent. */
  ghost function StartOf(arena: map<CtxId, Ctx>, c: CtxId, rr: Option<Closure>): Ctx
  {
    (if c in arena then arena[c] else Fresh).(rerender := rr)
  }

  /** The arena after `render` has given the parent `p` a fresh context
      `next` at the unused position `idx`, installed its rerender entry if it
      had none and copied the entry to the child (component.py:41-47, 66-73). */
  ghost function AdoptFresh(arena: map<CtxId, Ctx>, next: CtxId, p: CtxId, idx: int, t: Closure): map<CtxId, Ctx>
    requires p in arena
  {
    var pc := arena[p];
    arena[p := pc.(childIndex := idx, children := pc.children[idx := next], rerender := Installed(pc, t))]
         [next := Fresh.(rerender := Installed(pc, t))]
  }

  ghost predicate AdoptFreshPre(arena: map<CtxId, Ctx>, current: CtxId, next: CtxId, p: CtxId, idx: int, t: Closure)
  {
    Wf(arena, current, next) && p in arena && idx !in arena[p].children
    && t.parent == p && t.index == idx && t.ctx == next
  }

  lemma AdoptFreshChildren(arena: map<CtxId, Ctx>, current: CtxId, next: CtxId, p: CtxId, idx: int, t: Closure)
    requires AdoptFreshPre(arena, current, next, p, idx, t)
    ensures ChildrenOk(AdoptFresh(arena, next, p, idx, t))
  {
    var pc := arena[p];
    var a := AdoptFresh(arena, next, p, idx, t);
    assert next !in arena;
    forall q, k | q in a && k in a[q].children ensures ChildOk(a, q, Kid(a, q, k)) {
      if q == p {
        if k != idx {
          assert ChildOk(arena, p, Kid(arena, p, k));
        }
      } else if q != next {
        assert a[q] == arena[q];
        assert ChildOk(arena, q, Kid(arena, q, k));
      }
    }
  }

  lemma AdoptFreshOwned(arena: map<CtxId, Ctx>, current: CtxId, next: CtxId, p: CtxId, idx: int, t: Closure)
    requires AdoptFreshPre(arena, current, next, p, idx, t)
    ensures Owned(AdoptFresh(arena, next, p, idx, t))
  {
    var pc := arena[p];
    var a := AdoptFresh(arena, next, p, idx, t);
    assert next !in arena;
    forall q1, j, q2, k | q1 in a && q2 in a && j in a[q1].children && k in a[q2].children &&
                          Kid(a, q1, j) == Kid(a, q2, k)
      ensures q1 == q2 && j == k
    {
      if q1 != p { assert a[q1] == arena[q1]; assert ChildOk(arena, q1, Kid(arena, q1, j)); }
      if q2 != p { assert a[q2] == arena[q2]; assert ChildOk(arena, q2, Kid(arena, q2, k)); }
      if q1 == p && j != idx { assert ChildOk(arena, p, Kid(arena, p, j)); }
      if q2 == p && k != idx { assert ChildOk(arena, p, Kid(arena, p, k)); }
      if (q1 != p || j != idx) && (q2 != p || k != idx) {
        assert Kid(arena, q1, j) == Kid(arena, q2, k);
      }
    }
  }

  lemma AdoptFreshRerenders(arena: map<CtxId, Ctx>, current: CtxId, next: CtxId, p: CtxId, idx: int, t: Closure)
    requires AdoptFreshPre(arena, current, next, p, idx, t)
    ensures RerendersOk(AdoptFresh(arena, next, p, idx, t))
    ensures ClosureOk(AdoptFresh(arena, next, p, idx, t), t)
  {
    var pc := arena[p];
    var a := AdoptFresh(arena, next, p, idx, t);
    assert next !in arena;
    forall c | ClosureOk(arena, c) ensures ClosureOk(a, c) {
      assert c.parent != next;
    }
    forall id | id in a && EntryOf(a, id).Some? ensures ClosureOk(a, EntryOf(a, id).value) {
      if id == p || id == next {
        if pc.rerender.Some? { assert ClosureOk(arena, EntryOf(arena, p).value); }
      } else {
        assert a[id] == arena[id];
        assert ClosureOk(arena, EntryOf(arena, id).value);
      }
    }
  }

  lemma AdoptFreshWf(arena: map<CtxId, Ctx>, current: CtxId, next: CtxId, p: CtxId, idx: int, t: Closure)
    requires AdoptFreshPre(arena, current, next, p, idx, t)
    ensures Wf(AdoptFresh(arena, next, p, idx, t), current, next + 1)
    ensures ClosureOk(AdoptFresh(arena, next, p, idx, t), t)
    ensures Grows(arena, AdoptFresh(arena, next, p, idx, t))
  {
    var a := AdoptFresh(arena, next, p, idx, t);
    assert next !in arena;
    forall q, k | q in arena && k in arena[q].children ensures k in a[q].children && Kid(a, q, k) == Kid(arena, q, k) {
    }
    AdoptFreshChildren(arena, current, next, p, idx, t);
    AdoptFreshOwned(arena, current, next, p, idx, t);
    AdoptFreshRerenders(arena, current, next, p, idx, t);
  }

  // ---------------------------------------------------------------------
  // Frames: what a render may touch

  /** Arena `b` extends arena `a`: every context is still there and every
      position of a child map still holds the same context. */
  ghost predicate Grows(a: map<CtxId, Ctx>, b: map<CtxId, Ctx>)
  {
    a.Keys <= b.Keys
    && forall p, k {:trigger Kid(a, p, k)} ::
         p in a && k in a[p].children ==> k in b[p].children && Kid(b, p, k) == Kid(a, p, k)
  }

  lemma GrowsTrans(a: map<CtxId, Ctx>, b: map<CtxId, Ctx>, c: map<CtxId, Ctx>)
    requires Grows(a, b) && Grows(b, c)
    ensures Grows(a, c)
  {
    forall p, k | p in a && k in a[p].children ensures k in c[p].children && Kid(c, p, k) == Kid(a, p, k) {
      var x := Kid(a, p, k);
      assert k in b[p].children && Kid(b, p, k) == x;
    }
  }

  /** Context `id` sits at some position of a context in `s`. */
  ghost predicate HasParentIn(arena: map<CtxId, Ctx>, s: set<CtxId>, id: CtxId)
  {
    exists p, k {:trigger Kid(arena, p, k)} ::
      p in arena && k in arena[p].children && p in s && Kid(arena, p, k) == id
  }

  /** `s` is a set of contexts hanging from `root`: every member other than
      `root` is a child of another member, so `s` lies inside the subtree of
      `root`. */
  ghost predicate Hangs(arena: map<CtxId, Ctx>, root: CtxId, s: set<CtxId>)
  {
    root in s && s <= arena.Keys
    && forall id {:trigger Member(s, id)} :: Member(s, id) && id != root ==> HasParentIn(arena, s, id)
  }

  /** Membership in a subtree set; `Hangs` is triggered on this function only,
      so a parent found in the set does not set off a search for its own
      parent. */
  ghost function Member(s: set<CtxId>, id: CtxId): bool
  {
    id in s
  }

  /** A subtree stays a subtree as the arena grows. */
  lemma HangsGrow(a: map<CtxId, Ctx>, b: map<CtxId, Ctx>, root: CtxId, s: set<CtxId>)
    requires Hangs(a, root, s) && Grows(a, b)
    ensures Hangs(b, root, s)
  {
    forall id | Member(s, id) && id != root ensures HasParentIn(b, s, id) {
      var p, k :| p in a && k in a[p].children && p in s && Kid(a, p, k) == id;
      assert Kid(b, p, k) == id;
    }
  }

  lemma HangsUnion(arena: map<CtxId, Ctx>, root: CtxId, s1: set<CtxId>, s2: set<CtxId>)
    requires Hangs(arena, root, s1) && Hangs(arena, root, s2)
    ensures Hangs(arena, root, s1 + s2)
  {
    forall id | Member(s1 + s2, id) && id != root ensures HasParentIn(arena, s1 + s2, id) {
      if id in s1 {
        assert Member(s1, id);
        var p, k :| p in arena && k in arena[p].children && p in s1 && Kid(arena, p, k) == id;
      } else {
        assert Member(s2, id);
        var p, k :| p in arena && k in arena[p].children && p in s2 && Kid(arena, p, k) == id;
      }
    }
  }

  /** The subtree of a child, together with its parent, hangs from the parent. */
  lemma HangsGraft(arena: map<CtxId, Ctx>, root: CtxId, k: int, s: set<CtxId>)
    requires root in arena && k in arena[root].children && Hangs(arena, Kid(arena, root, k), s)
    ensures Hangs(arena, root, {root} + s)
  {
    var c := Kid(arena, root, k);
    forall id | Member({root} + s, id) && id != root ensures HasParentIn(arena, {root} + s, id) {
      if id == c {
        assert Kid(arena, root, k) == id;
      } else {
        assert Member(s, id);
        var p, j :| p in arena && j in arena[p].children && p in s && Kid(arena, p, j) == id;
      }
    }
  }

  /** Every member of a subtree is at least as young as its root. */
  lemma {:induction false} HangsAbove(arena: map<CtxId, Ctx>, root: CtxId, s: set<CtxId>, id: CtxId)
    requires ChildrenOk(arena) && Hangs(arena, root, s) && id in s
    ensures id >= root
    decreases id
  {
    if id != root {
      assert Member(s, id);
      var p, k :| p in arena && k in arena[p].children && p in s && Kid(arena, p, k) == id;
      assert ChildOk(arena, p, Kid(arena, p, k));
      HangsAbove(arena, root, s, p);
    }
  }

  /** Isolation of siblings: when a subtree hangs from the child of `q` at
      position `j`, no other child of `q` is in it. */
  lemma SiblingOutside(arena: map<CtxId, Ctx>, q: CtxId, j: int, k: int, s: set<CtxId>)
    requires ChildrenOk(arena) && Owned(arena)
    requires q in arena && j in arena[q].children && k in arena[q].children && j != k
    requires Hangs(arena, Kid(arena, q, j), s)
    ensures Kid(arena, q, k) !in s
  {
    var root := Kid(arena, q, j);
    var x := Kid(arena, q, k);
    assert ChildOk(arena, q, Kid(arena, q, j));
    if q in s {
      HangsAbove(arena, root, s, q);
    }
    assert Member(s, x) ==> HasParentIn(arena, s, x);
  }

  // ---------------------------------------------------------------------
  // What one render of a body does to its own context

  /** The output of step `i` of `body`, rendered against context `ctx` whose
      entry before the render was `before`: a `use_state` step yields the old
      slot value (or its initial value) together with a setter for hook index
      = number of earlier `use_state` calls; a call step yields the result of
      the child held, in `after`, at child index = number of earlier
      component calls. */
  ghost predicate OutputOk(before: Ctx, after: Ctx, ctx: CtxId, body: seq<Step>, result: seq<Out>, i: int)
    requires 0 <= i < |body| && i < |result|
  {
    match body[i]
    case UseState(init) =>
      var k := HooksIn(body[..i]);
      result[i] == Hook(StateGet(before.state, k, init), Setter(ctx, k, before.rerender))
    case Call(_) =>
      var k := CallsIn(body[..i]);
      result[i].Child? && k in after.children && after.children[k] == result[i].ctx
  }

  /** Context `ctx`, whose entry before its render started was `before`, has
      run the first `n` steps of `body` (with fresh identities starting at
      `fresh`) and now has entry `after`; `result` is what those steps
      returned. */
  ghost predicate RenderedUpTo(before: Ctx, after: Ctx, ctx: CtxId, body: seq<Step>, n: nat,
                               result: seq<Out>, firstNew: CtxId)
    requires n <= |body|
  {
    after.hookIndex == HooksIn(body[..n]) - 1
    && after.childIndex == CallsIn(body[..n]) - 1
    && after.state == Claimed(before.state, body[..n])
    && after.rerender == before.rerender
    && (forall k :: k in before.children ==> k in after.children && after.children[k] == before.children[k])
    && (forall k :: 0 <= k < CallsIn(body[..n]) ==> k in after.children)
    && (forall k :: k in after.children && k !in before.children ==>
                     0 <= k < CallsIn(body[..n]) && after.children[k] >= firstNew)
    && |result| == n
    && (forall i :: 0 <= i < n ==> OutputOk(before, after, ctx, body, result, i))
  }

  /** One `use_state` step keeps `RenderedUpTo` (component.py:83-100). */
  lemma StepHook(before: Ctx, e: Ctx, e': Ctx, ctx: CtxId, body: seq<Step>, i: nat,
                 result: seq<Out>, result': seq<Out>, firstNew: CtxId, value: Value, setter: Setter)
    requires i < |body| && body[i].UseState?
    requires RenderedUpTo(before, e, ctx, body, i, result, firstNew)
    requires var k := e.hookIndex + 1;
             value == StateGet(e.state, k, body[i].init) && setter == Setter(ctx, k, e.rerender)
    requires var k := e.hookIndex + 1;
             e' == e.(hookIndex := k, state := Claim(e.state, k, body[i].init))
    requires result' == result + [Hook(value, setter)]
    ensures RenderedUpTo(before, e', ctx, body, i + 1, result', firstNew)
  {
    PrefixStep(body, i, before.state);
    ClaimedSlots(before.state, body[..i]);
    forall j | 0 <= j < i + 1 ensures OutputOk(before, e', ctx, body, result', j) {
      if j < i {
        assert OutputOk(before, e, ctx, body, result, j);
      }
    }
  }

  /** One component-call step keeps `RenderedUpTo`: the parent's child counter
      moves on by one and the position holds the reused or a fresh context
      (component.py:38-47). */
  lemma StepCall(before: Ctx, e: Ctx, e': Ctx, ctx: CtxId, body: seq<Step>, i: nat,
                 result: seq<Out>, result': seq<Out>, firstNew: CtxId, child: CtxId, r: seq<Out>)
    requires i < |body| && body[i].Call?
    requires RenderedUpTo(before, e, ctx, body, i, result, firstNew)
    requires var idx := e.childIndex + 1;
             (idx in e.children ==> child == e.children[idx]) && (idx !in e.children ==> child >= firstNew)
    requires var idx := e.childIndex + 1;
             e' == e.(childIndex := idx, children := e.children[idx := child])
    requires result' == result + [Child(child, r)]
    ensures RenderedUpTo(before, e', ctx, body, i + 1, result', firstNew)
  {
    PrefixStep(body, i, before.state);
    var idx := e.childIndex + 1;
    assert forall k :: k in e.children ==> k in e'.children && e'.children[k] == e.children[k];
    forall j | 0 <= j < i + 1 ensures OutputOk(before, e', ctx, body, result', j) {
      if j < i {
        assert OutputOk(before, e, ctx, body, result, j);
      }
    }
  }

  /** A whole body has been rendered. */
  ghost predicate Rendered(before: Ctx, after: Ctx, ctx: CtxId, body: seq<Step>, result: seq<Out>, firstNew: CtxId)
  {
    RenderedUpTo(before, after, ctx, body, |body|, result, firstNew)
  }

  /** Component-call step `j` of `body`, run under a context whose entry was
      `before` when the render started from arena `start`, rendered its whole
      body in the child context it reports, starting from that context as it was in
      `start` (or from a fresh one) with the shared rerender entry. */
  ghost predicate ChildDone(start: map<CtxId, Ctx>, arena: map<CtxId, Ctx>, before: Ctx, body: seq<Step>,
                            result: seq<Out>, j: int, firstNew: CtxId)
    requires 0 <= j < |body| && j < |result| && body[j].Call?
  {
    result[j].Child? && result[j].ctx in arena
    && var c := result[j].ctx;
       Rendered(StartOf(start, c, before.rerender), arena[c], c,
                body[j].func.body, result[j].result, firstNew)
  }

  /** What step `i` of a body may have changed besides its own context:
      nothing for a `use_state` step, and only the subtree of the child it
      reports for a component call. */
  ghost predicate StepConfined(arena: map<CtxId, Ctx>, body: seq<Step>, i: nat, result: seq<Out>, sub: set<CtxId>)
    requires i < |body|
  {
    (body[i].UseState? ==> sub == {})
    && (body[i].Call? ==> |result| == i + 1 && result[i].Child? && Hangs(arena, result[i].ctx, sub))
  }

  /** The positions of `before`'s child map from `n` on have not been
      visited yet in this render: their contexts are as in `start`. */
  ghost predicate Pending(start: map<CtxId, Ctx>, arena: map<CtxId, Ctx>, before: Ctx, n: int)
  {
    forall k :: k in before.children && k >= n ==>
      before.children[k] in start && before.children[k] in arena && arena[before.children[k]] == start[before.children[k]]
  }

  /** `Rendered` with an earlier bound on fresh identities. */
  lemma RenderedFrom(before: Ctx, after: Ctx, ctx: CtxId, body: seq<Step>, result: seq<Out>, f0: CtxId, f1: CtxId)
    requires Rendered(before, after, ctx, body, result, f1) && f0 <= f1
    ensures Rendered(before, after, ctx, body, result, f0)
  {
  }

  /** A render of the child at position `pos` of `ctx` that changed nothing
      outside that child's subtree `sub` (and `ctx` itself) left the child at
      every other position of `ctx` as it was. */
  lemma SiblingKept(a: map<CtxId, Ctx>, b: map<CtxId, Ctx>, ctx: CtxId, pos: int, k: int, sub: set<CtxId>)
    requires ChildrenOk(a) && ChildrenOk(b) && Owned(b) && Grows(a, b)
    requires ctx in a && k in a[ctx].children && pos in b[ctx].children && pos != k
    requires Hangs(b, Kid(b, ctx, pos), sub)
    requires forall id :: id in a && id != ctx && id !in sub ==> b[id] == a[id]
    ensures Kid(a, ctx, k) in a && Kid(a, ctx, k) in b
    ensures Kid(b, ctx, k) == Kid(a, ctx, k) && b[Kid(a, ctx, k)] == a[Kid(a, ctx, k)]
  {
    var x := Kid(a, ctx, k);
    assert ChildOk(a, ctx, x);
    assert k in b[ctx].children && Kid(b, ctx, k) == x;
    SiblingOutside(b, ctx, pos, k, sub);
  }

  /** Arenas `m` and `o` agree on every context younger than `ctx`. */
  ghost predicate AgreeAbove(m: map<CtxId, Ctx>, o: map<CtxId, Ctx>, ctx: CtxId)
  {
    forall id :: id > ctx ==> (id in m <==> id in o) && (id in m ==> m[id] == o[id])
  }

  /** `ChildDone` only looks at the starting contexts of the children of
      `ctx`, which are younger than `ctx`. */
  lemma ChildDoneRebase(m: map<CtxId, Ctx>, o: map<CtxId, Ctx>, arena: map<CtxId, Ctx>, before: Ctx, ctx: CtxId,
                        body: seq<Step>, result: seq<Out>, j: int, f0: CtxId, f1: CtxId)
    requires 0 <= j < |body| && j < |result| && body[j].Call?
    requires ChildrenOk(arena) && ctx in arena && AgreeAbove(m, o, ctx) && f0 <= f1
    requires ChildDone(m, arena, before, body, result, j, f1)
    requires OutputOk(before, arena[ctx], ctx, body, result, j)
    ensures ChildDone(o, arena, before, body, result, j, f0)
  {
    var c := result[j].ctx;
    assert ChildOk(arena, ctx, Kid(arena, ctx, CallsIn(body[..j])));
    assert StartOf(m, c, before.rerender) == StartOf(o, c, before.rerender);
    RenderedFrom(StartOf(m, c, before.rerender), arena[c], c,
                 body[j].func.body, result[j].result, f0, f1);
  }

  /** The child rendered by call step `i` started from its context as it was
      in `start` when it was reused, or from a fresh one. */
  lemma CallDone(start: map<CtxId, Ctx>, a: map<CtxId, Ctx>, b: map<CtxId, Ctx>, before: Ctx, ctx: CtxId,
                 body: seq<Step>, i: nat, result: seq<Out>, result': seq<Out>, firstNew: CtxId, aNext: CtxId,
                 child: CtxId, r: seq<Out>)
    requires i < |body| && body[i].Call? && result' == result + [Child(child, r)]
    requires ctx in a && RenderedUpTo(before, a[ctx], ctx, body, i, result, firstNew)
    requires Pending(start, a, before, CallsIn(body[..i]))
    requires (forall id :: id in start ==> id < firstNew) && firstNew <= aNext && aNext !in a
    requires child == NextChild(a[ctx], aNext)
    requires child in b
    requires Rendered(StartOf(a, child, before.rerender), b[child], child, body[i].func.body, r, aNext)
    ensures ChildDone(start, b, before, body, result', i, firstNew)
  {
    var e := a[ctx];
    var pos := e.childIndex + 1;
    if pos in e.children {
      assert pos in before.children && e.children[pos] == before.children[pos];
      assert child in start && a[child] == start[child];
    } else {
      assert child !in start;
    }
    RenderedFrom(StartOf(start, child, before.rerender), b[child], child, body[i].func.body, r, firstNew, aNext);
    assert result'[i] == Child(child, r);
  }

  /** A `use_state` step, which changes only context `ctx`, keeps the
      unvisited positions and the children already rendered. */
  lemma HookKeepsChildren(start: map<CtxId, Ctx>, a: map<CtxId, Ctx>, b: map<CtxId, Ctx>, before: Ctx, ctx: CtxId,
                          body: seq<Step>, i: nat, result: seq<Out>, result': seq<Out>, firstNew: CtxId)
    requires i < |body| && body[i].UseState? && ChildrenOk(a) && ctx in a
    requires RenderedUpTo(before, a[ctx], ctx, body, i, result, firstNew)
    requires |result'| == i + 1 && result'[..i] == result
    requires forall id :: id in a && id != ctx ==> id in b && b[id] == a[id]
    requires Pending(start, a, before, CallsIn(body[..i]))
    requires forall j :: 0 <= j < i && body[j].Call? ==> ChildDone(start, a, before, body, result, j, firstNew)
    ensures Pending(start, b, before, CallsIn(body[..i + 1]))
    ensures forall j :: 0 <= j < i && body[j].Call? ==> ChildDone(start, b, before, body, result', j, firstNew)
  {
    PrefixStep(body, i, before.state);
    forall j | 0 <= j < i && body[j].Call? ensures ChildDone(start, b, before, body, result', j, firstNew) {
      assert result'[j] == result[j];
      assert ChildDone(start, a, before, body, result, j, firstNew);
      assert OutputOk(before, a[ctx], ctx, body, result, j);
      assert ChildOk(a, ctx, Kid(a, ctx, CallsIn(body[..j])));
    }
    forall k | k in before.children && k >= CallsIn(body[..i + 1])
      ensures before.children[k] in start && before.children[k] in b && b[before.children[k]] == start[before.children[k]]
    {
      assert ChildOk(a, ctx, Kid(a, ctx, k));
    }
  }

  /** A component-call step, which changes nothing outside context `ctx` and
      the subtree `sub` of the child at position `pos`, keeps the unvisited
      positions after `pos` and the children already rendered. */
  lemma CallKeepsChildren(start: map<CtxId, Ctx>, a: map<CtxId, Ctx>, b: map<CtxId, Ctx>, before: Ctx, ctx: CtxId,
                          body: seq<Step>, i: nat, result: seq<Out>, result': seq<Out>, firstNew: CtxId,
                          pos: int, sub: set<CtxId>)
    requires i < |body| && body[i].Call?
    requires ChildrenOk(a) && ChildrenOk(b) && Owned(b) && Grows(a, b) && ctx in a
    requires RenderedUpTo(before, a[ctx], ctx, body, i, result, firstNew)
    requires |result'| == i + 1 && result'[..i] == result
    requires pos == CallsIn(body[..i]) && pos in b[ctx].children && Hangs(b, Kid(b, ctx, pos), sub)
    requires forall id :: id in a && id != ctx && id !in sub ==> b[id] == a[id]
    requires Pending(start, a, before, CallsIn(body[..i]))
    requires forall j :: 0 <= j < i && body[j].Call? ==> ChildDone(start, a, before, body, result, j, firstNew)
    ensures Pending(start, b, before, CallsIn(body[..i + 1]))
    ensures forall j :: 0 <= j < i && body[j].Call? ==> ChildDone(start, b, before, body, result', j, firstNew)
  {
    PrefixStep(body, i, before.state);
    forall j | 0 <= j < i && body[j].Call? ensures ChildDone(start, b, before, body, result', j, firstNew) {
      assert result'[j] == result[j];
      assert ChildDone(start, a, before, body, result, j, firstNew);
      assert OutputOk(before, a[ctx], ctx, body, result, j);
      CallIndicesDistinct(body, j, i);
      SiblingKept(a, b, ctx, pos, CallsIn(body[..j]), sub);
    }
    forall k | k in before.children && k >= CallsIn(body[..i + 1])
      ensures before.children[k] in start && before.children[k] in b && b[before.children[k]] == start[before.children[k]]
    {
      SiblingKept(a, b, ctx, pos, k, sub);
    }
  }

  // ---------------------------------------------------------------------
  // The engine: module-level state of component.py

  class Engine {
    /** Every context dictionary, by identity. */
    var arena: map<CtxId, Ctx>
    /** `_deephaven_current_context`. */
    var current: CtxId
    /** Source of identities for newly created dictionaries. */
    var next: CtxId
    /** `_deephaven_component_listeners`. */
    var listeners: seq<ListenerId>
    /** Every listener call made so far. */
    var notified: seq<Notification>
    /** Every rerender entry invoked by a setter so far. */
    var rerenderCalls: seq<Closure>

    ghost predicate Valid()
      reads this
    {
      Wf(arena, current, next)
    }

    /** Module import: an empty current context and no listeners (:3-4). */
    constructor ()
      ensures Valid()
      ensures arena == map[0 := Fresh] && current == 0 && next == 1
      ensures listeners == [] && notified == [] && rerenderCalls == []
    {
      arena := map[0 := Fresh];
      current := 0;
      next := 1;
      listeners := [];
      notified := [];
      rerenderCalls := [];
    }

    /** `_reset_state`: the current context becomes a fresh empty one (:7-9). */
    method ResetState()
      requires Valid()
      modifies this`arena, this`current, this`next
      ensures Valid()
      ensures current == old(next) && current !in old(arena)
      ensures arena == old(arena)[current := Fresh] && next == old(next) + 1
    {
      WfAddFresh(arena, current, next);
      arena := arena[next := Fresh];
      current := next;
      next := next + 1;
    }

    /** `add_component_listener` (:17-18). */
    method AddComponentListener(listener: ListenerId)
      modifies this`listeners
      ensures listeners == old(listeners) + [listener]
    {
      listeners := listeners + [listener];
    }

    /** `_notify_listener_updated` (:12-14). */
    method NotifyListenerUpdated(component: Func, result: seq<Out>)
      modifies this`notified
      ensures notified == old(notified) + Notifications(listeners, component, result)
    {
      var i := 0;
      while i < |listeners|
        invariant 0 <= i <= |listeners|
        invariant notified == old(notified) + Notifications(listeners[..i], component, result)
      {
        NotificationsSnoc(listeners[..i], listeners[i], component, result);
        assert listeners[..i + 1] == listeners[..i] + [listeners[i]];
        notified := notified + [Notification(listeners[i], component, result)];
        i := i + 1;
      }
      assert listeners[..i] == listeners;
    }

    /** `use_state(initial_value)` against the current context (:80-102):
        claims the next hook index, reads the slot (storing `init` if it was
        empty) and returns a setter bound to that slot and to the context's
        rerender entry. */
    method UseState(init: Value) returns (value: Value, setter: Setter)
      requires Valid()
      modifies this`arena
      ensures Valid() && Grows(old(arena), arena)
      ensures var c := old(arena[current]); var k := c.hookIndex + 1;
              && arena == old(arena)[current := c.(hookIndex := k, state := Claim(c.state, k, init))]
              && value == StateGet(c.state, k, init)
              && setter == Setter(current, k, c.rerender)
    {
      var c := arena[current];
      var k := c.hookIndex + 1;
      ghost var arena0 := arena;
      WfKeepsShape(arena, current, next, current, c.(hookIndex := k));
      arena := arena[current := c.(hookIndex := k)];
      var state := arena[current].state;
      value := StateGet(state, k, init);
      state := state[k := value];
      WfKeepsShape(arena, current, next, current, arena[current].(state := state));
      ghost var arena1 := arena;
      arena := arena[current := arena[current].(state := state)];
      GrowsTrans(arena0, arena1, arena);
      setter := Setter(current, k, arena[current].rerender);
    }

    /** `set_value(new_value)` (:97-100): writes exactly the captured slot of
        the captured context and then calls the captured rerender entry once;
        that call is recorded, not run. With no rerender entry (a hook used
        outside every component) the call fails after the write. */
    method SetValue(setter: Setter, v: Value) returns (ok: bool)
      requires Valid() && setter.ctx in arena
      modifies this`arena, this`rerenderCalls
      ensures Valid()
      ensures var c := old(arena[setter.ctx]);
              arena == old(arena)[setter.ctx := c.(state := c.state[setter.index := v])]
      ensures ok == setter.rerender.Some?
      ensures rerenderCalls == old(rerenderCalls) + (if ok then [setter.rerender.value] else [])
    {
      var c := arena[setter.ctx];
      WfKeepsShape(arena, current, next, setter.ctx, c.(state := c.state[setter.index := v]));
      arena := arena[setter.ctx := c.(state := c.state[setter.index := v])];
      ok := setter.rerender.Some?;
      if ok {
        rerenderCalls := rerenderCalls + [setter.rerender.value];
      }
    }

    /** The first half of the `render` closure (:35-47, 66-73): take the
        parent's next child index, reuse the context already at that index
        or create a fresh one, install the parent's rerender entry if it has
        none and hand that entry to the child. Returns the new `rerender`
        closure. */
    method Adopt(f: Func) returns (closure: Closure)
      requires Valid()
      modifies this`arena, this`next
      ensures Valid() && ClosureOk(arena, closure) && Grows(old(arena), arena)
      ensures var p := old(arena[current]);
              var idx := p.childIndex + 1;
              var reused := idx in p.children;
              && closure == Closure(f, current, idx, if reused then p.children[idx] else old(next))
              && arena == (if reused then old(arena)[current := p.(childIndex := idx)]
                           else AdoptFresh(old(arena), old(next), current, idx, closure))
              && next == (if reused then old(next) else old(next) + 1)
    {
      var parent := current;
      var p := arena[parent];
      var idx := p.childIndex + 1;
      ghost var oldArena: map<CtxId, Ctx> := arena;
      if idx in p.children {
        assert ChildOk(arena, parent, Kid(arena, parent, idx));
        WfKeepsShape(arena, current, next, parent, p.(childIndex := idx));
      } else {
        AdoptFreshWf(arena, current, next, parent, idx, Closure(f, parent, idx, next));
      }
      arena := arena[parent := arena[parent].(childIndex := idx)];
      var children := arena[parent].children;
      var child: CtxId;
      if idx in children {
        child := children[idx];
      } else {
        child := next;
        next := next + 1;
        arena := arena[child := Fresh];
      }
      children := children[idx := child];
      arena := arena[parent := arena[parent].(children := children)];
      closure := Closure(f, parent, idx, child);
      if arena[parent].rerender.None? {
        arena := arena[parent := arena[parent].(rerender := Some(closure))];
      }
      arena := arena[child := arena[child].(rerender := arena[parent].rerender)];
      if idx in p.children {
        assert p.children[idx := child] == p.children;
        assert arena == oldArena[parent := p.(childIndex := idx)];
      } else {
        assert arena == AdoptFresh(oldArena, child, parent, idx, closure);
      }
    }

    /** The `render` closure (:31-75), called with the current context as
        parent: `Adopt`, then `rerender()` of the child. The parent's entry
        changes only in its child counter, the child map at the claimed index
        and the rerender entry installed if it had none; the child's context is
        the one already at that index, or a fresh one when the index was never
        used, and every component the child calls is rendered from its own
        stored context. Nothing outside the parent and the child's subtree
        `touched` changes, and the current context is the same afterwards. */
    method Render(f: Func) returns (result: seq<Out>, ghost touched: set<CtxId>)
      requires Valid()
      modifies this`arena, this`current, this`next
      decreases f, 3
      ensures Valid() && Grows(old(arena), arena)
      ensures current == old(current)
      ensures old(arena).Keys <= arena.Keys && old(next) <= next
      // Implied by the `touched` frame and `HangsAbove`; stated for callers that
      // only need "no older context changes".
      ensures forall id :: id in old(arena) && id < current ==> arena[id] == old(arena[id])
      ensures forall id :: id in old(arena) && id != current && id !in touched ==> arena[id] == old(arena[id])
      ensures var p := old(arena[current]);
              var idx := p.childIndex + 1;
              var child := NextChild(p, old(next));
              var rr := Installed(p, Closure(f, current, idx, child));
              var before := StartOf(old(arena), child, rr);
              && arena[current] == p.(childIndex := idx, children := p.children[idx := child], rerender := rr)
              && child in arena
              && Hangs(arena, child, touched)
              && Rendered(before, arena[child], child, f.body, result, old(next))
              && forall j :: 0 <= j < |f.body| && f.body[j].Call? ==>
                   ChildDone(old(arena), arena, before, f.body, result, j, old(next))
    {
      ghost var oldArena: map<CtxId, Ctx> := arena;
      ghost var next0 := next;
      ghost var p := arena[current];
      if p.childIndex + 1 in p.children {
        assert ChildOk(arena, current, Kid(arena, current, p.childIndex + 1));
      }
      var closure := Adopt(f);
      ghost var mid, midNext := arena, next;
      ghost var idx := p.childIndex + 1;
      ghost var child := NextChild(p, next0);
      ghost var rr := Installed(p, Closure(f, current, idx, child));
      assert closure == Closure(f, current, idx, child);
      assert mid[current] == p.(childIndex := idx, children := p.children[idx := child], rerender := rr);
      assert mid[child] == StartOf(oldArena, child, rr);
      assert forall id :: id in oldArena && id != current ==> id in mid && mid[id] == oldArena[id];
      assert forall id :: id in mid ==> id in oldArena || id == closure.ctx;
      assert AgreeAbove(mid, oldArena, closure.ctx);
      result, touched := Rerender(closure);
      GrowsTrans(oldArena, mid, arena);
      forall id | id in oldArena && id < old(current) ensures arena[id] == oldArena[id] {
        assert id in mid && id < closure.ctx;
      }
      ghost var before := mid[closure.ctx];
      forall j | 0 <= j < |f.body| && f.body[j].Call?
        ensures ChildDone(oldArena, arena, before, f.body, result, j, next0)
      {
        assert OutputOk(before, arena[closure.ctx], closure.ctx, f.body, result, j);
        ChildDoneRebase(mid, oldArena, arena, before, closure.ctx, f.body, result, j, next0, midNext);
      }
    }

    /** The `rerender` closure (:50-63): clears the context's hook and child
        counters, makes it current, runs the body step by step, writes the
        context back at its index of the parent's child map and makes the
        parent current. Every component the body calls is rendered from the
        context stored at its position. It changes no context created before
        its own, the parent included, and no context outside the subtree
        `touched` of its own context. */
    method Rerender(t: Closure) returns (result: seq<Out>, ghost touched: set<CtxId>)
      requires Valid() && ClosureOk(arena, t)
      modifies this`arena, this`current, this`next
      decreases t.func, 2
      ensures Valid() && Grows(old(arena), arena)
      ensures current == t.parent
      ensures old(arena).Keys <= arena.Keys && old(next) <= next
      ensures forall id :: id in old(arena) && id < t.ctx ==> arena[id] == old(arena[id])
      ensures Hangs(arena, t.ctx, touched)
      ensures forall id :: id in old(arena) && id !in touched ==> arena[id] == old(arena[id])
      ensures t.ctx in arena && Rendered(old(arena[t.ctx]), arena[t.ctx], t.ctx, t.func.body, result, old(next))
      ensures forall j :: 0 <= j < |t.func.body| && t.func.body[j].Call? ==>
                ChildDone(old(arena), arena, old(arena[t.ctx]), t.func.body, result, j, old(next))
    {
      ghost var arena0, next0 := arena, next;
      ghost var before := arena[t.ctx];
      assert ChildOk(arena, t.parent, Kid(arena, t.parent, t.index));
      var c := arena[t.ctx];
      WfKeepsShape(arena, current, next, t.ctx, c.(hookIndex := -1, childIndex := -1));
      arena := arena[t.ctx := c.(hookIndex := -1, childIndex := -1)];
      current := t.ctx;
      result := [];
      touched := {t.ctx};
      forall k | k in before.children && k >= 0
        ensures before.children[k] in arena0 && before.children[k] in arena && arena[before.children[k]] == arena0[before.children[k]]
      {
        assert ChildOk(arena0, t.ctx, Kid(arena0, t.ctx, k));
      }
      var i := 0;
      while i < |t.func.body|
        invariant 0 <= i <= |t.func.body|
        invariant Valid() && current == t.ctx
        invariant arena0.Keys <= arena.Keys && next0 <= next
        invariant Grows(arena0, arena) && Hangs(arena, t.ctx, touched)
        invariant forall id :: id in arena0 && id < t.ctx ==> arena[id] == arena0[id]
        invariant forall id :: id in arena0 && id !in touched ==> arena[id] == arena0[id]
        invariant t.ctx in arena && RenderedUpTo(before, arena[t.ctx], t.ctx, t.func.body, i, result, next0)
        invariant Pending(arena0, arena, before, CallsIn(t.func.body[..i]))
        invariant forall j :: 0 <= j < i && t.func.body[j].Call? ==>
                    ChildDone(arena0, arena, before, t.func.body, result, j, next0)
      {
        ghost var sub;
        result, sub := RenderStep(t, arena0, before, next0, touched, i, result);
        touched := touched + ({t.ctx} + sub);
        i := i + 1;
      }
      assert t.func.body[..|t.func.body|] == t.func.body;
      ghost var pc, arena1 := arena[t.parent], arena;
      assert pc.children[t.index := t.ctx] == pc.children;
      arena := arena[t.parent := arena[t.parent].(children := arena[t.parent].children[t.index := t.ctx])];
      assert arena == arena1;
      current := t.parent;
    }

    /** Step `i` of the body run by `Rerender(t)`: a `use_state` call or a
        component call against the closure's own context. A component call
        renders the child at the next position from its stored context and
        changes nothing outside that child's subtree `sub` and the closure's
        own context; the children at the other positions are kept. */
    method RenderStep(t: Closure, ghost start: map<CtxId, Ctx>, ghost before: Ctx, ghost firstNew: CtxId,
                      ghost touched: set<CtxId>, i: nat, result: seq<Out>)
      returns (result': seq<Out>, ghost sub: set<CtxId>)
      requires Valid() && current == t.ctx && t.ctx in arena && i < |t.func.body|
      requires before.rerender.Some? && firstNew <= next
      requires forall id :: id in start ==> id < firstNew
      requires start.Keys <= arena.Keys && Grows(start, arena) && Hangs(arena, t.ctx, touched)
      requires forall id :: id in start && id < t.ctx ==> arena[id] == start[id]
      requires forall id :: id in start && id !in touched ==> arena[id] == start[id]
      requires RenderedUpTo(before, arena[t.ctx], t.ctx, t.func.body, i, result, firstNew)
      requires Pending(start, arena, before, CallsIn(t.func.body[..i]))
      requires forall j :: 0 <= j < i && t.func.body[j].Call? ==>
                 ChildDone(start, arena, before, t.func.body, result, j, firstNew)
      modifies this`arena, this`current, this`next
      decreases t.func, 1
      ensures Valid() && current == t.ctx && t.ctx in arena && firstNew <= next
      ensures Hangs(arena, t.ctx, {t.ctx} + sub)
      ensures old(arena).Keys <= arena.Keys
      ensures forall id :: id in old(arena) && id != t.ctx && id !in sub ==> arena[id] == old(arena[id])
      ensures start.Keys <= arena.Keys && Grows(start, arena) && Hangs(arena, t.ctx, touched + ({t.ctx} + sub))
      ensures forall id :: id in start && id < t.ctx ==> arena[id] == start[id]
      ensures forall id :: id in start && id !in touched + ({t.ctx} + sub) ==> arena[id] == start[id]
      ensures RenderedUpTo(before, arena[t.ctx], t.ctx, t.func.body, i + 1, result', firstNew)
      ensures Pending(start, arena, before, CallsIn(t.func.body[..i + 1]))
      ensures forall j :: 0 <= j < i + 1 && t.func.body[j].Call? ==>
                ChildDone(start, arena, before, t.func.body, result', j, firstNew)
      ensures StepConfined(arena, t.func.body, i, result', sub)
    {
      ghost var a := arena;
      if t.func.body[i].UseState? {
        result', sub := HookStep(t, start, before, firstNew, i, result);
      } else {
        result', sub := CallStep(t, start, before, firstNew, i, result);
      }
      GrowsTrans(start, a, arena);
      HangsGrow(a, arena, t.ctx, touched);
      HangsUnion(arena, t.ctx, touched, {t.ctx} + sub);
    }

    /** A `use_state` step of `Rerender(t)` (:80-95): only the closure's own
        context changes. */
    method HookStep(t: Closure, ghost start: map<CtxId, Ctx>, ghost before: Ctx, ghost firstNew: CtxId,
                    i: nat, result: seq<Out>)
      returns (result': seq<Out>, ghost sub: set<CtxId>)
      requires Valid() && current == t.ctx && t.ctx in arena && i < |t.func.body|
      requires before.rerender.Some? && firstNew <= next
      requires forall id :: id in start ==> id < firstNew
      requires RenderedUpTo(before, arena[t.ctx], t.ctx, t.func.body, i, result, firstNew)
      requires Pending(start, arena, before, CallsIn(t.func.body[..i]))
      requires forall j :: 0 <= j < i && t.func.body[j].Call? ==>
                 ChildDone(start, arena, before, t.func.body, result, j, firstNew)
      requires t.func.body[i].UseState?
      modifies this`arena
      ensures Valid() && current == t.ctx && t.ctx in arena && Grows(old(arena), arena)
      ensures old(arena).Keys <= arena.Keys && old(next) <= next
      ensures forall id :: id in old(arena) && id < t.ctx ==> arena[id] == old(arena[id])
      ensures Hangs(arena, t.ctx, {t.ctx} + sub)
      ensures forall id :: id in old(arena) && id != t.ctx && id !in sub ==> arena[id] == old(arena[id])
      ensures RenderedUpTo(before, arena[t.ctx], t.ctx, t.func.body, i + 1, result', firstNew)
      ensures Pending(start, arena, before, CallsIn(t.func.body[..i + 1]))
      ensures forall j :: 0 <= j < i + 1 && t.func.body[j].Call? ==>
                ChildDone(start, arena, before, t.func.body, result', j, firstNew)
      ensures sub == {}
    {
      var body := t.func.body;
      ghost var e, a := arena[t.ctx], arena;
      PrefixStep(body, i, before.state);
      var value, setter := UseState(body[i].init);
      assert arena == a[t.ctx := arena[t.ctx]];
      result' := result + [Hook(value, setter)];
      StepHook(before, e, arena[t.ctx], t.ctx, body, i, result, result', firstNew, value, setter);
      sub := {};
      assert Hangs(arena, t.ctx, {t.ctx} + sub) by {
        assert forall id :: Member({t.ctx}, id) ==> id == t.ctx;
      }
      HookKeepsChildren(start, a, arena, before, t.ctx, body, i, result, result', firstNew);
    }

    /** A component-call step of `Rerender(t)` (:31-75): `render` of the
        called component with the closure's context as parent. */
    method CallStep(t: Closure, ghost start: map<CtxId, Ctx>, ghost before: Ctx, ghost firstNew: CtxId,
                    i: nat, result: seq<Out>)
      returns (result': seq<Out>, ghost sub: set<CtxId>)
      requires Valid() && current == t.ctx && t.ctx in arena && i < |t.func.body|
      requires before.rerender.Some? && firstNew <= next
      requires forall id :: id in start ==> id < firstNew
      requires RenderedUpTo(before, arena[t.ctx], t.ctx, t.func.body, i, result, firstNew)
      requires Pending(start, arena, before, CallsIn(t.func.body[..i]))
      requires forall j :: 0 <= j < i && t.func.body[j].Call? ==>
                 ChildDone(start, arena, before, t.func.body, result, j, firstNew)
      requires t.func.body[i].Call?
      modifies this`arena, this`current, this`next
      decreases t.func, 0
      ensures Valid() && current == t.ctx && t.ctx in arena && Grows(old(arena), arena)
      ensures old(arena).Keys <= arena.Keys && old(next) <= next
      ensures forall id :: id in old(arena) && id < t.ctx ==> arena[id] == old(arena[id])
      ensures Hangs(arena, t.ctx, {t.ctx} + sub)
      ensures forall id :: id in old(arena) && id != t.ctx && id !in sub ==> arena[id] == old(arena[id])
      ensures RenderedUpTo(before, arena[t.ctx], t.ctx, t.func.body, i + 1, result', firstNew)
      ensures Pending(start, arena, before, CallsIn(t.func.body[..i + 1]))
      ensures forall j :: 0 <= j < i + 1 && t.func.body[j].Call? ==>
                ChildDone(start, arena, before, t.func.body, result', j, firstNew)
      ensures |result'| == i + 1 && result'[i].Child? && Hangs(arena, result'[i].ctx, sub)
    {
      var body := t.func.body;
      ghost var e, a, aNext := arena[t.ctx], arena, next;
      PrefixStep(body, i, before.state);
      var g := body[i].func;
      assert body[i] in t.func.body;
      var pos := arena[t.ctx].childIndex + 1;
      var child := NextChild(arena[t.ctx], next);
      ghost var cb := StartOf(a, child, Installed(e, Closure(g, t.ctx, pos, child)));
      var r, s := Render(g);
      assert Rendered(cb, arena[child], child, g.body, r, aNext);
      assert Installed(e, Closure(g, t.ctx, pos, child)) == e.rerender == before.rerender;
      result' := result + [Child(child, r)];
      StepCall(before, e, arena[t.ctx], t.ctx, body, i, result, result', firstNew, child, r);
      HangsGraft(arena, t.ctx, pos, s);
      sub := s;
      assert result'[..i] == result;
      CallDone(start, a, arena, before, t.ctx, body, i, result, result', firstNew, aNext, child, r);
      CallKeepsChildren(start, a, arena, before, t.ctx, body, i, result, result', firstNew, pos, s);
    }

    /** `toplevel_rerender` (:67-69): the entry a setter calls. Rerenders the
        component it was created for, exactly as `Rerender` does (every
        component it calls directly is rendered from its stored context),
        then notifies every listener with that component and the new result. */
    method ToplevelRerender(t: Closure) returns (ghost result: seq<Out>, ghost touched: set<CtxId>)
      requires Valid() && ClosureOk(arena, t)
      modifies this`arena, this`current, this`next, this`notified
      ensures Valid() && Grows(old(arena), arena)
      ensures current == t.parent
      ensures old(arena).Keys <= arena.Keys && old(next) <= next
      ensures forall id :: id in old(arena) && id < t.ctx ==> arena[id] == old(arena[id])
      ensures Hangs(arena, t.ctx, touched)
      ensures forall id :: id in old(arena) && id !in touched ==> arena[id] == old(arena[id])
      ensures t.ctx in arena && Rendered(old(arena[t.ctx]), arena[t.ctx], t.ctx, t.func.body, result, old(next))
      ensures forall j :: 0 <= j < |t.func.body| && t.func.body[j].Call? ==>
                ChildDone(old(arena), arena, old(arena[t.ctx]), t.func.body, result, j, old(next))
      ensures notified == old(notified) + Notifications(listeners, t.func, result)
    {
      var r;
      r, touched := Rerender(t);
      result := r;
      NotifyListenerUpdated(t.func, r);
    }
  }
}
