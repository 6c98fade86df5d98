/** Client-side uses of the two engines, each on a freshly allocated one:
    the behaviour a component author relies on, derived from the contracts
    of the engine operations alone. */
module Scenarios {
  import opened Slots
  import opened Component
  import Hooks

  /** A counter component: one `use_state(0)`. */
  const Counter := Func("counter", [UseState(Int(0))])

  /** A component whose body calls one counter. */
  const Parent := Func("parent", [Call(Counter)])

  /** Whatever a counter rendered from: its one output is the value stored in
      slot 0, or 0 when the slot was empty, with a setter for slot 0 of its
      own context and the entry it started with; slot 0 then holds that
      value. */
  lemma CounterOutput(before: Ctx, after: Ctx, ctx: CtxId, result: seq<Out>, firstNew: CtxId)
    requires Rendered(before, after, ctx, Counter.body, result, firstNew)
    ensures result == [Hook(StateGet(before.state, 0, Int(0)), Setter(ctx, 0, before.rerender))]
    ensures after.state == Claim(before.state, 0, Int(0))
  {
    assert Counter.body[..0] == [] && Counter.body[..1] == Counter.body;
    assert OutputOk(before, after, ctx, Counter.body, result, 0);
    assert after.state == Claimed(before.state, Counter.body);
    assert Claimed(before.state, Counter.body[..0]) == before.state && HooksIn(Counter.body[..0]) == 0;
  }

  /** The one call step of a parent rendered its counter child from the
      context as it was in `start`. */
  lemma ParentChild(start: map<CtxId, Ctx>, arena: map<CtxId, Ctx>, before: Ctx, ctx: CtxId,
                    result: seq<Out>, firstNew: CtxId)
    requires ctx in arena && Rendered(before, arena[ctx], ctx, Parent.body, result, firstNew)
    requires ChildDone(start, arena, before, Parent.body, result, 0, firstNew)
    ensures |result| == 1 && result[0].Child? && result[0].ctx in arena
    ensures 0 in arena[ctx].children && arena[ctx].children[0] == result[0].ctx
    ensures 0 in before.children ==> before.children[0] == result[0].ctx
    ensures 0 !in before.children ==> result[0].ctx >= firstNew
    ensures var c := result[0].ctx;
            result[0].result == [Hook(StateGet(StartOf(start, c, before.rerender).state, 0, Int(0)),
                                      Setter(c, 0, before.rerender))]
  {
    assert Parent.body[..0] == [];
    assert OutputOk(before, arena[ctx], ctx, Parent.body, result, 0);
    var c := result[0].ctx;
    CounterOutput(StartOf(start, c, before.rerender), arena[c], c, result[0].result, firstNew);
  }

  /** Render a counter at the top level, notice the listener added
      beforehand, set the counter to 5 and run the entry the setter calls.
      The first render shows the initial value; the setter asks for exactly
      the counter's own rerender entry; running that entry renders the new
      value in the same context and reports it once to the listener. */
  method CounterScenario() returns (first: Out, calls: seq<Closure>, seen: seq<Notification>)
    ensures first == Hook(Int(0), Setter(1, 0, Some(Closure(Counter, 0, 0, 1))))
    ensures calls == [Closure(Counter, 0, 0, 1)]
    ensures |seen| == 1 && seen[0].listener == 7 && seen[0].component == Counter
    ensures |seen[0].result| == 1 && seen[0].result[0] == Hook(Int(5), Setter(1, 0, Some(Closure(Counter, 0, 0, 1))))
  {
    var e := new Engine();
    e.AddComponentListener(7);
    var closure := Closure(Counter, 0, 0, 1);
    var r, _ := e.Render(Counter);
    CounterOutput(Fresh.(rerender := Some(closure)), e.arena[1], 1, r, 1);
    first := r[0];
    assert e.arena[0].rerender == Some(closure);
    assert e.rerenderCalls == [] && e.notified == [] && e.listeners == [7];
    var ok := e.SetValue(first.setter, Int(5));
    calls := e.rerenderCalls;
    assert calls == [closure];
    assert EntryOf(e.arena, 0) == Some(closure);
    assert e.arena[1].state == map[0 := Int(5)];
    ghost var c1 := e.arena[1];
    ghost var next0 := e.next;
    assert e.notified == [] && e.listeners == [7];
    var again, _ := e.ToplevelRerender(closure);
    CounterOutput(c1, e.arena[1], 1, again, next0);
    assert again == [Hook(Int(5), Setter(1, 0, Some(closure)))];
    seen := e.notified;
    assert seen == Notifications([7], Counter, again);
    NotificationsAt([7], Counter, again);
  }

  /** A second component rendered at the top level of the same root takes
      the next child position, gets its own fresh context and initial value,
      but shares the rerender entry of the first top-level component: its
      setter rerenders the first component, not itself. */
  method SecondTopLevelScenario() returns (first: Out, second: Out)
    ensures first == Hook(Int(0), Setter(1, 0, Some(Closure(Counter, 0, 0, 1))))
    ensures second.Hook? && second.value == Int(0)
    ensures second.setter.ctx != 1 && second.setter.index == 0
    ensures second.setter.rerender == Some(Closure(Counter, 0, 0, 1))
  {
    var e := new Engine();
    var closure := Closure(Counter, 0, 0, 1);
    var r1, _ := e.Render(Counter);
    CounterOutput(Fresh.(rerender := Some(closure)), e.arena[1], 1, r1, 1);
    first := r1[0];
    ghost var p := e.arena[0];
    assert p.childIndex == 0 && p.children == map[0 := 1] && p.rerender == Some(closure);
    assert 1 in e.arena;
    ghost var child := e.next;
    var r2, _ := e.Render(Counter);
    CounterOutput(Fresh.(rerender := Some(closure)), e.arena[child], child, r2, child);
    second := r2[0];
  }

  /** Rendering a second counter at the top level leaves the first
      counter's context exactly as its own render left it: the second
      render touches only the root and the second counter's subtree. */
  method SiblingUntouchedScenario() returns (c1: Ctx, c1': Ctx)
    ensures c1 == c1'
    ensures c1.state == map[0 := Int(0)]
  {
    var e := new Engine();
    var closure := Closure(Counter, 0, 0, 1);
    var r1, _ := e.Render(Counter);
    CounterOutput(Fresh.(rerender := Some(closure)), e.arena[1], 1, r1, 1);
    c1 := e.arena[1];
    assert e.arena[0].children == map[0 := 1];
    ghost var n := e.next;
    var r2, touched := e.Render(Counter);
    assert Kid(e.arena, 0, 0) == 1 && Kid(e.arena, 0, 1) == n;
    SiblingOutside(e.arena, 0, 1, 0, touched);
    c1' := e.arena[1];
  }

  /** Two top-level counters; the first one's setter writes 5 and its
      rerender entry runs. The second counter's context is untouched by
      that rerender: it still holds its initial value. */
  method RerenderIsolationScenario() returns (c2: Ctx, c2': Ctx)
    ensures c2 == c2'
    ensures c2.state == map[0 := Int(0)]
  {
    var e := new Engine();
    var closure := Closure(Counter, 0, 0, 1);
    var r1, _ := e.Render(Counter);
    CounterOutput(Fresh.(rerender := Some(closure)), e.arena[1], 1, r1, 1);
    assert e.arena[0].children == map[0 := 1] && e.arena[0].rerender == Some(closure);
    ghost var n := e.next;
    var r2, _ := e.Render(Counter);
    assert e.arena[0].children == map[0 := 1, 1 := n];
    var second := e.arena[0].children[1];
    c2 := e.arena[second];
    CounterOutput(Fresh.(rerender := Some(closure)), c2, second, r2, n);
    var ok := e.SetValue(r1[0].setter, Int(5));
    assert ClosureOk(e.arena, closure);
    assert Kid(e.arena, 0, 0) == 1;
    var again, touched := e.ToplevelRerender(closure);
    assert Kid(e.arena, 0, 0) == 1 && Kid(e.arena, 0, 1) == second;
    SiblingOutside(e.arena, 0, 0, 1, touched);
    c2' := e.arena[second];
  }

  /** A parent whose body calls a counter: the parent's output for that
      call is the counter's result, reported from the context at the
      parent's child position 0, and the counter rendered from a fresh
      context, so it shows its initial value. */
  method NestedScenario() returns (out: Out, position0: CtxId, childState: map<int, Value>)
    ensures out.Child? && out.ctx == position0
    ensures childState == map[0 := Int(0)]
    ensures out.result == [Hook(Int(0), Setter(position0, 0, Some(Closure(Parent, 0, 0, 1))))]
  {
    var e := new Engine();
    var parent := Parent;
    var r, _ := e.Render(parent);
    ghost var pb := Fresh.(rerender := Some(Closure(parent, 0, 0, 1)));
    ParentChild(map[0 := Fresh], e.arena, pb, 1, r, 1);
    out := r[0];
    position0 := e.arena[1].children[0];
    CounterOutput(StartOf(map[0 := Fresh], out.ctx, pb.rerender), e.arena[out.ctx], out.ctx, out.result, 1);
    childState := e.arena[out.ctx].state;
  }

  /** The end-to-end run: a parent renders one counter at the top level, the
      counter's setter writes 5 and the entry it asks for runs. The listener
      receives the parent's new result, in which the counter, still at the
      same context, now shows 5. */
  method NestedSetterScenario() returns (firstOut: Out, seen: seq<Notification>)
    ensures firstOut.Child?
    ensures |seen| == 1 && seen[0].listener == 7 && seen[0].component == Parent
    ensures |seen[0].result| == 1 && seen[0].result[0].Child? && seen[0].result[0].ctx == firstOut.ctx
    ensures seen[0].result[0].result
            == [Hook(Int(5), Setter(seen[0].result[0].ctx, 0, Some(Closure(Parent, 0, 0, 1))))]
  {
    var e := new Engine();
    e.AddComponentListener(7);
    var t := Closure(Parent, 0, 0, 1);
    var r, _ := e.Render(Parent);
    ghost var pb := Fresh.(rerender := Some(t));
    ParentChild(map[0 := Fresh], e.arena, pb, 1, r, 1);
    var out := r[0];
    firstOut := out;
    ghost var position0 := out.ctx;
    CounterOutput(StartOf(map[0 := Fresh], out.ctx, pb.rerender), e.arena[out.ctx], out.ctx, out.result, 1);
    assert e.arena[0].rerender == Some(t);
    var ok := e.SetValue(out.result[0].setter, Int(5));
    assert EntryOf(e.arena, 0) == Some(t);
    ghost var arena0, c1 := e.arena, e.arena[1];
    assert arena0[position0].state == map[0 := Int(5)];
    ghost var next0 := e.next;
    var again, _ := e.ToplevelRerender(t);
    ParentChild(arena0, e.arena, c1, 1, again, next0);
    seen := e.notified;
    NotificationsAt([7], Parent, again);
  }

  /** A `use_state` call outside every component reads the root context;
      its setter writes the slot but has no rerender entry to call. */
  method OutsideComponentScenario() returns (value: Value, ok: bool, state: map<int, Value>)
    ensures value == Int(3) && !ok && state == map[0 := Int(4)]
  {
    var e := new Engine();
    var setter;
    value, setter := e.UseState(Int(3));
    ok := e.SetValue(setter, Int(4));
    state := e.arena[0].state;
  }

  /** hooks.py: a body with two hooks gets indices 0 and 1; after the first
      setter writes 7 and the component renders again, the same two calls
      get the same indices, the written value and the kept initial value. */
  method HookContextScenario() returns (i0: int, i1: int, j0: int, j1: int,
                                         a0: Value, a1: Value, b0: Value, b1: Value, rerenders: nat)
    ensures i0 == 0 && i1 == 1 && j0 == 0 && j1 == 1
    ensures a0 == Int(1) && a1 == Str("x")
    ensures b0 == Int(7) && b1 == Str("x")
    ensures rerenders == 1
  {
    var c := new Hooks.HookContext();
    var s0, s1;
    a0, s0 := Hooks.UseState(c, Int(1));
    a1, s1 := Hooks.UseState(c, Str("x"));
    i0, i1 := s0.index, s1.index;
    Hooks.SetValue(s0, Int(7));
    c.StartRender();
    var t0, t1;
    b0, t0 := Hooks.UseState(c, Int(2));
    b1, t1 := Hooks.UseState(c, Str("y"));
    j0, j1 := t0.index, t1.index;
    rerenders := c.rerenders;
  }
}
