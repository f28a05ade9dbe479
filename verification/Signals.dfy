// The signal graph of src/mii_vcd.c.
//
// A signal has a list of hooks; a hook notifies a callback, is chained to another signal, or both.
// Raising a signal is a recursive broadcast over a graph that may be shared and cyclic in any way,
// cut off only by the busy mark of a hook. SignalGraph says what a raise computes and what it
// amounts to; Signals is the code, on objects updated in place. Callbacks are taken not to raise
// or rewire signals themselves: all they do here is be recorded.
module SignalGraph {
  import opened Basics

  // What a raise leaves alone.
  datatype Wiring<S, H> = Wiring(hooks: map<S, seq<H>>, chain: map<H, Option<S>>, notify: map<H, Option<nat>>,
                                 inverted: set<S>, filtered: set<S>)

  datatype Call<H> = Call(hook: H, value: nat)

  // calls is the record of the callbacks, and seen of what the value of the signal was when each was
  // called. raising and passed are history: the signals whose raises are under way, the innermost
  // first, and those that got past the filter.
  datatype State<S, H> = State(value: map<S, nat>, init: set<S>, floating: set<S>, busy: set<H>,
                               calls: seq<Call<H>>, seen: seq<nat>, raising: seq<S>, passed: set<S>)

  ghost predicate Sound<S, H>(w: Wiring<S, H>) {
    && w.chain.Keys == w.notify.Keys
    && (forall s | s in w.hooks :: Known(w, w.hooks[s]))
    && (forall h | h in w.chain && w.chain[h].Some? :: w.chain[h].value in w.hooks)
  }

  ghost predicate Known<S, H>(w: Wiring<S, H>, hooks: seq<H>) {
    forall i | 0 <= i < |hooks| :: hooks[i] in w.chain
  }

  ghost predicate Over<S, H>(w: Wiring<S, H>, st: State<S, H>) {
    st.value.Keys == w.hooks.Keys && st.busy <= w.chain.Keys
  }

  // SIG_FLAG_NOT turns the value into the C truth value of its negation.
  ghost function Output<S, H>(w: Wiring<S, H>, s: S, value: nat): nat {
    if s in w.inverted then (if value == 0 then 1 else 0) else value
  }

  // The early return: a filtered signal that already has the value, and not for the first time.
  ghost predicate Blocked<S, H>(w: Wiring<S, H>, st: State<S, H>, s: S, output: nat)
    requires s in st.value
  {
    st.value[s] == output && s in w.filtered && s !in st.init
  }

  ghost function Start<S, H>(st: State<S, H>, s: S, floating: bool): State<S, H> {
    st.(init := st.init - {s}, floating := if floating then st.floating + {s} else st.floating - {s},
        raising := [s] + st.raising, passed := st.passed + {s})
  }

  // The value that a callback finds in the signal it is called for.
  ghost function Present<S, H>(st: State<S, H>): nat {
    if st.raising != [] && st.raising[0] in st.value then st.value[st.raising[0]] else 0
  }

  ghost function Notify<S, H>(w: Wiring<S, H>, st: State<S, H>, h: H, output: nat): State<S, H>
    requires h in w.notify
  {
    if w.notify[h].Some? then st.(calls := st.calls + [Call(h, output)], seen := st.seen + [Present(st)]) else st
  }

  // mii_raise_signal_float. It ends on every graph: each level of recursion marks one more hook.
  ghost function Raise<S, H>(w: Wiring<S, H>, st: State<S, H>, s: S, value: nat, floating: bool): (r: State<S, H>)
    requires Sound(w) && Over(w, st) && s in w.hooks
    ensures Over(w, r) && r.busy == st.busy && r.raising == st.raising
    decreases w.chain.Keys - st.busy, 2, 0
  {
    var output := Output(w, s, value);
    if Blocked(w, st, s, output) then st
    else
      var swept := Sweep(w, Start(st, s, floating), w.hooks[s], output, floating);
      swept.(value := swept.value[s := output], raising := st.raising)
  }

  // The while loop over the hooks.
  ghost function Sweep<S, H>(w: Wiring<S, H>, st: State<S, H>, hooks: seq<H>, output: nat, floating: bool):
      (r: State<S, H>)
    requires Sound(w) && Over(w, st) && Known(w, hooks)
    ensures Over(w, r) && r.busy == st.busy && r.raising == st.raising
    decreases w.chain.Keys - st.busy, 1, |hooks|
  {
    if hooks == [] then st
    else Sweep(w, Visit(w, st, hooks[0], output, floating), hooks[1..], output, floating)
  }

  ghost function Visit<S, H>(w: Wiring<S, H>, st: State<S, H>, h: H, output: nat, floating: bool): (r: State<S, H>)
    requires Sound(w) && Over(w, st) && h in w.chain
    ensures Over(w, r) && r.busy == st.busy && r.raising == st.raising
    decreases w.chain.Keys - st.busy, 0, 0
  {
    if h in st.busy then st
    else
      var held := Notify(w, st.(busy := st.busy + {h}), h, output);
      var done := if w.chain[h].Some? then Raise(w, held, w.chain[h].value, output, floating) else held;
      done.(busy := done.busy - {h})
  }

  lemma RaiseUnfolds<S, H>(w: Wiring<S, H>, st: State<S, H>, s: S, value: nat, floating: bool)
    requires Sound(w) && Over(w, st) && s in w.hooks
    ensures var output := Output(w, s, value); var begun := Start(st, s, floating);
      && Over(w, begun) && Known(w, w.hooks[s])
      && Raise(w, st, s, value, floating)
         == if Blocked(w, st, s, output) then st else
              var swept := Sweep(w, begun, w.hooks[s], output, floating);
              swept.(value := swept.value[s := output], raising := st.raising)
  {
  }

  lemma VisitUnfolds<S, H>(w: Wiring<S, H>, st: State<S, H>, h: H, output: nat, floating: bool)
    requires Sound(w) && Over(w, st) && h in w.chain
    ensures h in w.notify
    ensures var held := Notify(w, st.(busy := st.busy + {h}), h, output);
      && Over(w, held) && held.busy == st.busy + {h} && (w.chain[h].Some? ==> w.chain[h].value in w.hooks)
      && Visit(w, st, h, output, floating)
         == if h in st.busy then st else
              var done := if w.chain[h].Some? then Raise(w, held, w.chain[h].value, output, floating) else held;
              done.(busy := done.busy - {h})
  {
  }

  // ---- What a raise amounts to, without SIG_FLAG_NOT ----

  // The signal has been raised, or is one that the value does not get past.
  ghost predicate Hit<S, H>(w: Wiring<S, H>, r: State<S, H>, t: S, v: nat)
    requires t in r.value
  {
    t in r.passed || Blocked(w, r, t, v)
  }

  ghost predicate HookDone<S, H>(w: Wiring<S, H>, r: State<S, H>, h: H, v: nat)
    requires Sound(w) && Over(w, r) && h in w.chain
  {
    && (w.notify[h].Some? ==> Call(h, v) in r.calls)
    && (w.chain[h].Some? ==> Hit(w, r, w.chain[h].value, v))
  }

  ghost predicate HooksDone<S, H>(w: Wiring<S, H>, r: State<S, H>, hooks: seq<H>, busy: set<H>, v: nat)
    requires Sound(w) && Over(w, r) && Known(w, hooks)
  {
    forall i | 0 <= i < |hooks| && hooks[i] !in busy :: HookDone(w, r, hooks[i], v)
  }

  // Signals outside those passed are untouched; newly passed ones are done.
  ghost predicate Grows<S, H>(w: Wiring<S, H>, st: State<S, H>, r: State<S, H>, v: nat, floating: bool)
    requires Over(w, st) && Over(w, r)
  {
    && st.passed <= r.passed && st.calls <= r.calls
    && (forall t | t in w.hooks && t !in r.passed ::
          r.value[t] == st.value[t] && (t in r.init <==> t in st.init) && (t in r.floating <==> t in st.floating))
    && (forall t | t in w.hooks && t in r.passed && t !in st.passed :: r.value[t] == v)
    && (forall t | t in w.hooks :: r.value[t] == st.value[t] || r.value[t] == v)
  }

  // The passed signals have had their flags set.
  ghost predicate Flagged<S, H>(st: State<S, H>, floating: bool) {
    forall t | t in st.passed :: t !in st.init && (t in st.floating <==> floating)
  }

  // Every hook of a newly passed signal has been followed, but for those busy at the start.
  ghost predicate Closed<S, H>(w: Wiring<S, H>, before: set<S>, r: State<S, H>, busy: set<H>, v: nat)
    requires Sound(w) && Over(w, r)
  {
    forall u | u in w.hooks && u in r.passed && u !in before :: HooksDone(w, r, w.hooks[u], busy, v)
  }

  lemma GrowsRefl<S, H>(w: Wiring<S, H>, st: State<S, H>, v: nat, floating: bool)
    requires Over(w, st)
    ensures Grows(w, st, st, v, floating)
  {
  }

  lemma GrowsTrans<S, H>(w: Wiring<S, H>, a: State<S, H>, b: State<S, H>, c: State<S, H>, v: nat, floating: bool)
    requires Over(w, a) && Over(w, b) && Over(w, c) && Grows(w, a, b, v, floating) && Grows(w, b, c, v, floating)
    ensures Grows(w, a, c, v, floating)
  {
  }

  lemma HookStaysDone<S, H>(w: Wiring<S, H>, a: State<S, H>, b: State<S, H>, h: H, v: nat, floating: bool)
    requires Sound(w) && Over(w, a) && Over(w, b) && Grows(w, a, b, v, floating) && h in w.chain
    requires HookDone(w, a, h, v)
    ensures HookDone(w, b, h, v)
  {
  }

  lemma HooksStayDone<S, H>(w: Wiring<S, H>, a: State<S, H>, b: State<S, H>, hooks: seq<H>, busy: set<H>, v: nat,
                            floating: bool)
    requires Sound(w) && Over(w, a) && Over(w, b) && Grows(w, a, b, v, floating) && Known(w, hooks)
    requires HooksDone(w, a, hooks, busy, v)
    ensures HooksDone(w, b, hooks, busy, v)
  {
    forall i | 0 <= i < |hooks| && hooks[i] !in busy
      ensures HookDone(w, b, hooks[i], v)
    {
      HookStaysDone(w, a, b, hooks[i], v, floating);
    }
  }

  // One thing after another.
  lemma ClosedThen<S, H>(w: Wiring<S, H>, a: State<S, H>, b: State<S, H>, c: State<S, H>, busy: set<H>, v: nat,
                         floating: bool)
    requires Sound(w) && Over(w, b) && Over(w, c) && Grows(w, b, c, v, floating)
    requires Closed(w, a.passed, b, busy, v) && Closed(w, b.passed, c, busy, v)
    ensures Closed(w, a.passed, c, busy, v)
  {
    forall u | u in w.hooks && u in c.passed && u !in a.passed
      ensures HooksDone(w, c, w.hooks[u], busy, v)
    {
      if u in b.passed {
        HooksStayDone(w, b, c, w.hooks[u], busy, v, floating);
      }
    }
  }

  // A hook that was marked busy on the way counts as followed once it has been.
  lemma ClosedButOne<S, H>(w: Wiring<S, H>, before: set<S>, r: State<S, H>, busy: set<H>, h: H, v: nat)
    requires Sound(w) && Over(w, r) && h in w.chain && HookDone(w, r, h, v)
    requires Closed(w, before, r, busy + {h}, v)
    ensures Closed(w, before, r, busy, v)
  {
    forall u | u in w.hooks && u in r.passed && u !in before
      ensures HooksDone(w, r, w.hooks[u], busy, v)
    {
      var hooks := w.hooks[u];
      forall i | 0 <= i < |hooks| && hooks[i] !in busy
        ensures HookDone(w, r, hooks[i], v)
      {
        assert hooks[i] != h ==> hooks[i] !in busy + {h};
      }
    }
  }

  ghost predicate SameButBusy<S, H>(a: State<S, H>, b: State<S, H>) {
    a.(busy := b.busy) == b
  }

  lemma BusyApart<S, H>(w: Wiring<S, H>, st: State<S, H>, a: State<S, H>, b: State<S, H>, before: set<S>,
                        busy: set<H>, v: nat, floating: bool)
    requires Sound(w) && Over(w, st) && Over(w, a) && Over(w, b) && SameButBusy(a, b)
    ensures Grows(w, st, a, v, floating) ==> Grows(w, st, b, v, floating)
    ensures Closed(w, before, a, busy, v) ==> Closed(w, before, b, busy, v)
    ensures forall h | h in w.chain :: HookDone(w, a, h, v) ==> HookDone(w, b, h, v)
  {
    HookBusyApart(w, a, b, v);
    if Closed(w, before, a, busy, v) {
      forall u | u in w.hooks && u in b.passed && u !in before
        ensures HooksDone(w, b, w.hooks[u], busy, v)
      {
        assert HooksDone(w, a, w.hooks[u], busy, v);
      }
    }
  }

  lemma HookBusyApart<S, H>(w: Wiring<S, H>, a: State<S, H>, b: State<S, H>, v: nat)
    requires Sound(w) && Over(w, a) && Over(w, b) && SameButBusy(a, b)
    ensures forall h | h in w.chain :: HookDone(w, a, h, v) ==> HookDone(w, b, h, v)
  {
    forall t | t in w.hooks
      ensures Hit(w, a, t, v) ==> Hit(w, b, t, v)
    {
    }
  }

  lemma {:induction false} RaiseEffect<S, H>(w: Wiring<S, H>, st: State<S, H>, s: S, v: nat, floating: bool)
    requires Sound(w) && Over(w, st) && s in w.hooks && w.inverted == {}
    ensures var r := Raise(w, st, s, v, floating);
      && Grows(w, st, r, v, floating) && (Flagged(st, floating) ==> Flagged(r, floating))
      && Closed(w, st.passed, r, st.busy, v) && Hit(w, r, s, v)
    decreases w.chain.Keys - st.busy, 2, 0
  {
    if Blocked(w, st, s, v) {
      GrowsRefl(w, st, v, floating);
    } else {
      var begun := Start(st, s, floating);
      SweepEffect(w, begun, w.hooks[s], v, floating);
      var swept := Sweep(w, begun, w.hooks[s], v, floating);
      var r := swept.(value := swept.value[s := v], raising := st.raising);
      assert r == Raise(w, st, s, v, floating);
      hide Raise, Sweep;
      FinishEffect(w, st, s, swept, v, floating);
    }
  }

  lemma FinishEffect<S, H>(w: Wiring<S, H>, st: State<S, H>, s: S, swept: State<S, H>, v: nat, floating: bool)
    requires Sound(w) && Over(w, st) && s in w.hooks && Over(w, swept)
    requires var begun := Start(st, s, floating);
      && Grows(w, begun, swept, v, floating) && (Flagged(begun, floating) ==> Flagged(swept, floating))
      && Closed(w, begun.passed, swept, st.busy, v) && HooksDone(w, swept, w.hooks[s], st.busy, v)
    ensures var r := swept.(value := swept.value[s := v], raising := st.raising);
      && Over(w, r) && Grows(w, st, r, v, floating) && (Flagged(st, floating) ==> Flagged(r, floating))
      && Closed(w, st.passed, r, st.busy, v) && Hit(w, r, s, v)
  {
    var begun, r := Start(st, s, floating), swept.(value := swept.value[s := v], raising := st.raising);
    assert s in begun.passed;
    assert Flagged(st, floating) ==> Flagged(begun, floating);
    assert Grows(w, swept, r, v, floating);
    forall u | u in w.hooks && u in r.passed && u !in st.passed
      ensures HooksDone(w, r, w.hooks[u], st.busy, v)
    {
      HooksStayDone(w, swept, r, w.hooks[u], st.busy, v, floating);
    }
  }

  lemma {:induction false} SweepEffect<S, H>(w: Wiring<S, H>, st: State<S, H>, hooks: seq<H>, v: nat, floating: bool)
    requires Sound(w) && Over(w, st) && Known(w, hooks) && w.inverted == {}
    ensures var r := Sweep(w, st, hooks, v, floating);
      && Grows(w, st, r, v, floating) && (Flagged(st, floating) ==> Flagged(r, floating))
      && Closed(w, st.passed, r, st.busy, v) && HooksDone(w, r, hooks, st.busy, v)
    decreases w.chain.Keys - st.busy, 1, |hooks|
  {
    if hooks == [] {
      GrowsRefl(w, st, v, floating);
    } else {
      VisitEffect(w, st, hooks[0], v, floating);
      var next := Visit(w, st, hooks[0], v, floating);
      SweepEffect(w, next, hooks[1..], v, floating);
      var r := Sweep(w, next, hooks[1..], v, floating);
      assert r == Sweep(w, st, hooks, v, floating);
      hide Sweep, Visit, Grows, Flagged, Closed, HookDone;
      GrowsTrans(w, st, next, r, v, floating);
      ClosedThen(w, st, next, r, st.busy, v, floating);
      if hooks[0] !in st.busy {
        HookStaysDone(w, next, r, hooks[0], v, floating);
      }
    }
  }

  lemma {:induction false} VisitEffect<S, H>(w: Wiring<S, H>, st: State<S, H>, h: H, v: nat, floating: bool)
    requires Sound(w) && Over(w, st) && h in w.chain && w.inverted == {}
    ensures var r := Visit(w, st, h, v, floating);
      && Grows(w, st, r, v, floating) && (Flagged(st, floating) ==> Flagged(r, floating))
      && Closed(w, st.passed, r, st.busy, v) && (h !in st.busy ==> HookDone(w, r, h, v))
    decreases w.chain.Keys - st.busy, 0, 0
  {
    if h in st.busy {
      GrowsRefl(w, st, v, floating);
    } else {
      var held := Notify(w, st.(busy := st.busy + {h}), h, v);
      assert w.notify[h].Some? ==> held.calls[|st.calls|] == Call(h, v);
      assert Grows(w, st, held, v, floating);
      if w.chain[h].Some? {
        RaiseEffect(w, held, w.chain[h].value, v, floating);
        var done := Raise(w, held, w.chain[h].value, v, floating);
        LeaveHook(w, st, h, held, done, v, floating);
      } else {
        LeaveHook(w, st, h, held, held, v, floating);
      }
    }
  }

  lemma LeaveHook<S, H>(w: Wiring<S, H>, st: State<S, H>, h: H, held: State<S, H>, done: State<S, H>, v: nat,
                        floating: bool)
    requires Sound(w) && Over(w, st) && Over(w, held) && Over(w, done) && h in w.chain
    requires held.busy == done.busy == st.busy + {h} && held.passed == st.passed
    requires Grows(w, st, held, v, floating) && Grows(w, held, done, v, floating)
    requires Closed(w, held.passed, done, held.busy, v)
    requires w.notify[h].Some? ==> Call(h, v) in held.calls
    requires w.chain[h].Some? ==> Hit(w, done, w.chain[h].value, v)
    ensures var r := done.(busy := done.busy - {h});
      && Over(w, r) && Grows(w, st, r, v, floating)
      && Closed(w, st.passed, r, st.busy, v) && HookDone(w, r, h, v)
  {
    var r := done.(busy := done.busy - {h});
    assert Call(h, v) in held.calls ==> Call(h, v) in done.calls;
    assert HookDone(w, done, h, v);
    hide Grows, Closed, HookDone;
    GrowsTrans(w, st, held, done, v, floating);
    ClosedButOne(w, st.passed, done, st.busy, h, v);
    BusyApart(w, st, done, r, st.passed, st.busy, v, floating);
  }

  // ---- Reachability ----

  // From s to t by hooks that are not busy, through signals the value gets past.
  ghost predicate Path<S, H>(w: Wiring<S, H>, st: State<S, H>, s: S, path: seq<H>, t: S, v: nat)
    requires Sound(w) && Over(w, st)
  {
    && s in w.hooks && !Blocked(w, st, s, v)
    && if path == [] then s == t else
         && path[0] in w.hooks[s] && path[0] !in st.busy && path[0] in w.chain && w.chain[path[0]].Some?
         && Path(w, st, w.chain[path[0]].value, path[1..], t, v)
  }

  lemma {:induction false} PathIsFollowed<S, H>(w: Wiring<S, H>, st: State<S, H>, r: State<S, H>,
                                                s: S, path: seq<H>, t: S, v: nat, floating: bool)
    requires Sound(w) && Over(w, st) && Over(w, r) && st.passed == {} && Path(w, st, s, path, t, v)
    requires s in r.passed && Grows(w, st, r, v, floating) && Closed(w, {}, r, st.busy, v)
    ensures t in r.passed
    decreases |path|
  {
    if path != [] {
      var next := w.chain[path[0]].value;
      assert HooksDone(w, r, w.hooks[s], st.busy, v);
      assert HookDone(w, r, path[0], v);
      PathIsFollowed(w, st, r, next, path[1..], t, v, floating);
    }
  }

  // A state on the way: what has not been passed is as it was, what has been passed was not blocked.
  ghost predicate Later<S, H>(w: Wiring<S, H>, start: State<S, H>, st: State<S, H>, v: nat)
    requires Over(w, start) && Over(w, st)
  {
    && start.busy <= st.busy
    && (forall u | u in w.hooks && u !in st.passed ::
          st.value[u] == start.value[u] && (u in st.init <==> u in start.init))
    && (forall u | u in w.hooks && u in st.passed :: !Blocked(w, start, u, v))
  }

  lemma LastNotBlocked<S, H>(w: Wiring<S, H>, st: State<S, H>, s: S, path: seq<H>, t: S, v: nat)
    requires Sound(w) && Over(w, st) && Path(w, st, s, path, t, v)
    ensures t in w.hooks && !Blocked(w, st, t, v)
    decreases |path|
  {
    if path != [] {
      LastNotBlocked(w, st, w.chain[path[0]].value, path[1..], t, v);
    }
  }

  lemma {:induction false} RaisedHasPath<S, H>(w: Wiring<S, H>, start: State<S, H>, st: State<S, H>, s: S, t: S,
                                               v: nat, floating: bool) returns (path: seq<H>)
    requires Sound(w) && Over(w, start) && Over(w, st) && s in w.hooks && w.inverted == {} && Later(w, start, st, v)
    requires t in w.hooks && t in Raise(w, st, s, v, floating).passed && t !in st.passed
    ensures Path(w, start, s, path, t, v)
    decreases w.chain.Keys - st.busy, 2, 0
  {
    if s == t {
      path := [];
    } else {
      var begun := Start(st, s, floating);
      assert Later(w, start, begun, v);
      var h, rest := SweptHasPath(w, start, begun, w.hooks[s], t, v, floating);
      path := [h] + rest;
      assert path[1..] == rest;
    }
  }

  lemma {:induction false} SweptHasPath<S, H>(w: Wiring<S, H>, start: State<S, H>, st: State<S, H>, hooks: seq<H>, t: S,
                                              v: nat, floating: bool) returns (h: H, rest: seq<H>)
    requires Sound(w) && Over(w, start) && Over(w, st) && Known(w, hooks) && w.inverted == {} && Later(w, start, st, v)
    requires t in w.hooks && t in Sweep(w, st, hooks, v, floating).passed && t !in st.passed
    ensures h in hooks && h !in start.busy && h in w.chain && w.chain[h].Some?
    ensures Path(w, start, w.chain[h].value, rest, t, v)
    decreases w.chain.Keys - st.busy, 1, |hooks|
  {
    var next := Visit(w, st, hooks[0], v, floating);
    if t in next.passed {
      h := hooks[0];
      rest := VisitedHasPath(w, start, st, h, t, v, floating);
    } else {
      VisitEffect(w, st, hooks[0], v, floating);
      forall u | u in w.hooks && u in next.passed
        ensures !Blocked(w, start, u, v)
      {
        if u !in st.passed {
          var p := VisitedHasPath(w, start, st, hooks[0], u, v, floating);
          LastNotBlocked(w, start, w.chain[hooks[0]].value, p, u, v);
        }
      }
      h, rest := SweptHasPath(w, start, next, hooks[1..], t, v, floating);
    }
  }

  lemma {:induction false} VisitedHasPath<S, H>(w: Wiring<S, H>, start: State<S, H>, st: State<S, H>, h: H, t: S,
                                                v: nat, floating: bool) returns (path: seq<H>)
    requires Sound(w) && Over(w, start) && Over(w, st) && h in w.chain && w.inverted == {} && Later(w, start, st, v)
    requires t in w.hooks && t in Visit(w, st, h, v, floating).passed && t !in st.passed
    ensures h !in st.busy && w.chain[h].Some?
    ensures Path(w, start, w.chain[h].value, path, t, v)
    decreases w.chain.Keys - st.busy, 0, 0
  {
    var held := Notify(w, st.(busy := st.busy + {h}), h, v);
    path := RaisedHasPath(w, start, held, w.chain[h].value, t, v, floating);
  }

  // ---- Which callbacks are made ----

  // The calls made since the first n: with the value, on hooks that were free, and of signals that
  // have passed.
  ghost predicate CallsFit<S, H>(w: Wiring<S, H>, busy: set<H>, r: State<S, H>, n: nat, v: nat) {
    forall i | n <= i < |r.calls| :: CallFits(w, busy, r, r.calls[i], v)
  }

  ghost predicate CallFits<S, H>(w: Wiring<S, H>, busy: set<H>, r: State<S, H>, c: Call<H>, v: nat) {
    c.value == v && c.hook !in busy && exists t :: t in w.hooks && t in r.passed && c.hook in w.hooks[t]
  }

  lemma CallsStillFit<S, H>(w: Wiring<S, H>, busy: set<H>, a: State<S, H>, b: State<S, H>, n: nat, v: nat)
    requires CallsFit(w, busy, a, n, v) && b.calls == a.calls && a.passed <= b.passed
    ensures CallsFit(w, busy, b, n, v)
  {
    forall i | n <= i < |b.calls|
      ensures CallFits(w, busy, b, b.calls[i], v)
    {
      assert CallFits(w, busy, a, a.calls[i], v);
    }
  }

  lemma {:induction false} RaiseCalls<S, H>(w: Wiring<S, H>, busy: set<H>, st: State<S, H>, n: nat, s: S, v: nat,
                                            floating: bool)
    requires Sound(w) && Over(w, st) && s in w.hooks && w.inverted == {} && busy <= st.busy
    requires CallsFit(w, busy, st, n, v)
    ensures CallsFit(w, busy, Raise(w, st, s, v, floating), n, v)
    decreases w.chain.Keys - st.busy, 2, 0
  {
    RaiseUnfolds(w, st, s, v, floating);
    if !Blocked(w, st, s, v) {
      var begun := Start(st, s, floating);
      var swept := Sweep(w, begun, w.hooks[s], v, floating);
      CallsStillFit(w, busy, st, begun, n, v);
      SweepCalls(w, busy, begun, n, s, w.hooks[s], v, floating);
      CallsStillFit(w, busy, swept, swept.(value := swept.value[s := v], raising := st.raising), n, v);
    }
    hide Raise, Sweep, CallsFit;
  }

  lemma {:induction false} SweepCalls<S, H>(w: Wiring<S, H>, busy: set<H>, st: State<S, H>, n: nat, s: S,
                                            hooks: seq<H>, v: nat, floating: bool)
    requires Sound(w) && Over(w, st) && s in w.hooks && w.inverted == {} && busy <= st.busy
    requires Known(w, hooks) && (forall h | h in hooks :: h in w.hooks[s]) && s in st.passed
    requires CallsFit(w, busy, st, n, v)
    ensures CallsFit(w, busy, Sweep(w, st, hooks, v, floating), n, v)
    decreases w.chain.Keys - st.busy, 1, |hooks|
  {
    if hooks != [] {
      VisitCalls(w, busy, st, n, s, hooks[0], v, floating);
      VisitEffect(w, st, hooks[0], v, floating);
      var next := Visit(w, st, hooks[0], v, floating);
      assert s in next.passed && Sweep(w, st, hooks, v, floating) == Sweep(w, next, hooks[1..], v, floating);
      hide Sweep, Visit, CallsFit, Closed, HookDone, Flagged;
      SweepCalls(w, busy, next, n, s, hooks[1..], v, floating);
    }
  }

  lemma {:induction false} VisitCalls<S, H>(w: Wiring<S, H>, busy: set<H>, st: State<S, H>, n: nat, s: S, h: H, v: nat,
                                            floating: bool)
    requires Sound(w) && Over(w, st) && s in w.hooks && w.inverted == {} && busy <= st.busy
    requires h in w.chain && h in w.hooks[s] && s in st.passed
    requires CallsFit(w, busy, st, n, v)
    ensures CallsFit(w, busy, Visit(w, st, h, v, floating), n, v)
    decreases w.chain.Keys - st.busy, 0, 0
  {
    VisitUnfolds(w, st, h, v, floating);
    if h !in st.busy {
      var held := Notify(w, st.(busy := st.busy + {h}), h, v);
      OneCallMore(w, busy, st, n, s, h, v);
      if w.chain[h].Some? {
        RaiseCalls(w, busy, held, n, w.chain[h].value, v, floating);
      }
      var done := if w.chain[h].Some? then Raise(w, held, w.chain[h].value, v, floating) else held;
      hide Raise, Visit, Notify, CallsFit;
      CallsStillFit(w, busy, done, done.(busy := done.busy - {h}), n, v);
    }
  }

  lemma OneCallMore<S, H>(w: Wiring<S, H>, busy: set<H>, st: State<S, H>, n: nat, s: S, h: H, v: nat)
    requires s in w.hooks && s in st.passed && h in w.notify && h in w.hooks[s] && h !in busy
    requires CallsFit(w, busy, st, n, v)
    ensures CallsFit(w, busy, Notify(w, st.(busy := st.busy + {h}), h, v), n, v)
  {
    var held := Notify(w, st.(busy := st.busy + {h}), h, v);
    forall i | n <= i < |held.calls|
      ensures CallFits(w, busy, held, held.calls[i], v)
    {
      if i < |st.calls| {
        assert CallFits(w, busy, st, st.calls[i], v);
      }
    }
  }

  // ---- The main results ----

  // The path leads from s to t.
  ghost predicate Leads<S, H>(w: Wiring<S, H>, st: State<S, H>, s: S, path: seq<H>, t: S, v: nat)
    requires Sound(w) && Over(w, st)
  {
    Path(w, st, s, path, t, v)
  }

  // Whatever the graph, a raise leaves every hook free that was free before, and every busy one busy.
  // With no inverted signal, the signals that change are exactly those that a path of free hooks
  // leads to; they end with the raised value and flags, and all their free hooks have been notified.
  lemma RaiseReaches<S, H>(w: Wiring<S, H>, st: State<S, H>, s: S, v: nat, floating: bool, t: S)
    requires Sound(w) && Over(w, st) && st.passed == {} && w.inverted == {} && s in w.hooks && t in w.hooks
    ensures var r := Raise(w, st, s, v, floating);
      && r.busy == st.busy
      && (if exists path :: Path(w, st, s, path, t, v) then
            && r.value[t] == v && t !in r.init && (t in r.floating <==> floating)
            && forall i | 0 <= i < |w.hooks[t]| && w.hooks[t][i] !in st.busy && w.notify[w.hooks[t][i]].Some? ::
                 Call(w.hooks[t][i], v) in r.calls
          else
            r.value[t] == st.value[t] && (t in r.init <==> t in st.init) && (t in r.floating <==> t in st.floating))
  {
    var r := Raise(w, st, s, v, floating);
    RaiseEffect(w, st, s, v, floating);
    hide Raise;
    if path :| Path(w, st, s, path, t, v) {
      assert s in r.passed by {
        BlockedApart(w, st, r, s, v, floating);
      }
      PathIsFollowed(w, st, r, s, path, t, v, floating);
      forall i | 0 <= i < |w.hooks[t]| && w.hooks[t][i] !in st.busy && w.notify[w.hooks[t][i]].Some?
        ensures Call(w.hooks[t][i], v) in r.calls
      {
        assert HookDone(w, r, w.hooks[t][i], v);
      }
    } else if t in r.passed {
      var path := RaisedHasPath(w, st, st, s, t, v, floating);
    }
  }

  // And no other calls are made: each has the raised value, and is on a free hook of a signal that a
  // path leads to.
  lemma OnlyReachedAreCalled<S, H>(w: Wiring<S, H>, st: State<S, H>, s: S, v: nat, floating: bool)
    requires Sound(w) && Over(w, st) && st.passed == {} && w.inverted == {} && s in w.hooks
    ensures st.calls <= Raise(w, st, s, v, floating).calls
    ensures var r := Raise(w, st, s, v, floating);
      forall i | |st.calls| <= i < |r.calls| ::
        && r.calls[i].value == v && r.calls[i].hook !in st.busy
        && exists u, path :: u in w.hooks && r.calls[i].hook in w.hooks[u] && Leads(w, st, s, path, u, v)
  {
    RaiseEffect(w, st, s, v, floating);
    hide Raise;
    var r := Raise(w, st, s, v, floating);
    RaiseCalls(w, st.busy, st, |st.calls|, s, v, floating);
    forall i | |st.calls| <= i < |r.calls|
      ensures r.calls[i].value == v && r.calls[i].hook !in st.busy
      ensures exists u, path :: u in w.hooks && r.calls[i].hook in w.hooks[u] && Leads(w, st, s, path, u, v)
    {
      assert CallFits(w, st.busy, r, r.calls[i], v);
      var u :| u in w.hooks && u in r.passed && r.calls[i].hook in w.hooks[u];
      var path := RaisedHasPath(w, st, st, s, u, v, floating);
      assert Leads(w, st, s, path, u, v);
    }
  }

  lemma BlockedApart<S, H>(w: Wiring<S, H>, st: State<S, H>, r: State<S, H>, s: S, v: nat, floating: bool)
    requires Over(w, st) && Over(w, r) && s in w.hooks && Grows(w, st, r, v, floating) && Hit(w, r, s, v)
    requires !Blocked(w, st, s, v)
    ensures s in r.passed
  {
  }

  // Without filters too, every signal that a chain of free hooks leads to ends with the value.
  lemma {:induction false} ChainedSignalsGetTheValue<S, H>(w: Wiring<S, H>, st: State<S, H>, s: S, v: nat,
                                                           floating: bool, path: seq<H>, t: S)
    requires Sound(w) && Over(w, st) && st.passed == {} && s in w.hooks && w.inverted == {} && w.filtered == {}
    requires Chained(w, st, s, path, t) && t in w.hooks
    ensures Raise(w, st, s, v, floating).value[t] == v
  {
    ChainIsPath(w, st, s, path, t, v);
    RaiseReaches(w, st, s, v, floating, t);
    hide Raise;
  }

  ghost predicate Chained<S, H>(w: Wiring<S, H>, st: State<S, H>, s: S, path: seq<H>, t: S)
    requires Sound(w)
  {
    && s in w.hooks
    && if path == [] then s == t else
         && path[0] in w.hooks[s] && path[0] !in st.busy && path[0] in w.chain && w.chain[path[0]].Some?
         && Chained(w, st, w.chain[path[0]].value, path[1..], t)
  }

  lemma {:induction false} ChainIsPath<S, H>(w: Wiring<S, H>, st: State<S, H>, s: S, path: seq<H>, t: S, v: nat)
    requires Sound(w) && Over(w, st) && w.filtered == {} && Chained(w, st, s, path, t)
    ensures Path(w, st, s, path, t, v) && t in w.hooks
    decreases |path|
  {
    if path != [] {
      ChainIsPath(w, st, w.chain[path[0]].value, path[1..], t, v);
    }
  }

  // ---- With SIG_FLAG_NOT ----

  // The same but for values: which hooks were called, which signals passed, and the flags.
  ghost predicate SameTracks<S, H>(a: State<S, H>, b: State<S, H>) {
    && a.init == b.init && a.floating == b.floating && a.busy == b.busy && a.passed == b.passed
    && |a.calls| == |b.calls| && forall i | 0 <= i < |a.calls| :: a.calls[i].hook == b.calls[i].hook
  }

  // Signals that have not passed keep their values.
  ghost predicate Keeps<S, H>(w: Wiring<S, H>, a: State<S, H>, r: State<S, H>)
    requires Over(w, a) && Over(w, r)
  {
    a.passed <= r.passed && forall t | t in w.hooks && t !in r.passed :: r.value[t] == a.value[t]
  }

  ghost function Plain<S, H>(w: Wiring<S, H>): Wiring<S, H> {
    w.(inverted := {})
  }

  lemma {:induction false} RaiseTracks<S, H>(w: Wiring<S, H>, a: State<S, H>, b: State<S, H>, s: S, v: nat, v': nat,
                                             floating: bool)
    requires Sound(w) && Over(w, a) && Over(w, b) && s in w.hooks && w.filtered == {} && SameTracks(a, b)
    ensures Sound(Plain(w)) && Over(Plain(w), b)
    ensures var r := Raise(w, a, s, v, floating);
      SameTracks(r, Raise(Plain(w), b, s, v', floating)) && Keeps(w, a, r)
    decreases w.chain.Keys - a.busy, 2, 0
  {
    var a', b' := Start(a, s, floating), Start(b, s, floating);
    var x, x' := Output(w, s, v), Output(Plain(w), s, v');
    SweepTracks(w, a', b', w.hooks[s], x, x', floating);
    RaiseUnfolds(w, a, s, v, floating);
    RaiseUnfolds(Plain(w), b, s, v', floating);
    var swept := Sweep(w, a', w.hooks[s], x, floating);
    assert s in a'.passed && s in swept.passed;
    hide Raise, Sweep, Output;
  }

  lemma {:induction false} SweepTracks<S, H>(w: Wiring<S, H>, a: State<S, H>, b: State<S, H>, hooks: seq<H>,
                                             x: nat, x': nat, floating: bool)
    requires Sound(w) && Over(w, a) && Over(w, b) && Known(w, hooks) && w.filtered == {} && SameTracks(a, b)
    ensures Sound(Plain(w)) && Over(Plain(w), b) && Known(Plain(w), hooks)
    ensures var r := Sweep(w, a, hooks, x, floating);
      SameTracks(r, Sweep(Plain(w), b, hooks, x', floating)) && Keeps(w, a, r)
    decreases w.chain.Keys - a.busy, 1, |hooks|
  {
    if hooks != [] {
      VisitTracks(w, a, b, hooks[0], x, x', floating);
      var a', b' := Visit(w, a, hooks[0], x, floating), Visit(Plain(w), b, hooks[0], x', floating);
      SweepTracks(w, a', b', hooks[1..], x, x', floating);
      assert Sweep(w, a, hooks, x, floating) == Sweep(w, a', hooks[1..], x, floating);
      assert Sweep(Plain(w), b, hooks, x', floating) == Sweep(Plain(w), b', hooks[1..], x', floating);
      hide Sweep, Visit, SameTracks;
    }
  }

  lemma {:induction false} VisitTracks<S, H>(w: Wiring<S, H>, a: State<S, H>, b: State<S, H>, h: H,
                                             x: nat, x': nat, floating: bool)
    requires Sound(w) && Over(w, a) && Over(w, b) && h in w.chain && w.filtered == {} && SameTracks(a, b)
    ensures Sound(Plain(w)) && Over(Plain(w), b)
    ensures var r := Visit(w, a, h, x, floating);
      SameTracks(r, Visit(Plain(w), b, h, x', floating)) && Keeps(w, a, r)
    decreases w.chain.Keys - a.busy, 0, 0
  {
    if h !in a.busy {
      var a', b' := Notify(w, a.(busy := a.busy + {h}), h, x), Notify(Plain(w), b.(busy := b.busy + {h}), h, x');
      assert SameTracks(a', b') && a'.passed == a.passed && a'.value == a.value;
      if w.chain[h].Some? {
        RaiseTracks(w, a', b', w.chain[h].value, x, x', floating);
      }
      VisitUnfolds(w, a, h, x, floating);
      VisitUnfolds(Plain(w), b, h, x', floating);
      hide Raise, Visit, Notify;
    }
  }

  lemma {:induction false} ChainedIsPath<S, H>(w: Wiring<S, H>, st: State<S, H>, s: S, path: seq<H>, t: S, v: nat)
    requires Sound(w) && Sound(Plain(w)) && Over(Plain(w), st) && w.filtered == {}
    ensures Path(Plain(w), st, s, path, t, v) <==> Chained(w, st, s, path, t)
    decreases |path|
  {
    if path != [] && path[0] in w.chain && w.chain[path[0]].Some? {
      ChainedIsPath(w, st, w.chain[path[0]].value, path[1..], t, v);
    }
  }

  // ---- The values brought ----

  // The value that raising s gives the signal at the end of a chain.
  ghost function Brought<S, H>(w: Wiring<S, H>, s: S, v: nat, path: seq<H>): nat
    decreases |path|
  {
    var x := Output(w, s, v);
    if path == [] || path[0] !in w.chain || w.chain[path[0]].None? then x
    else Brought(w, w.chain[path[0]].value, x, path[1..])
  }

  // Signals with values that a raise may bring them: what one sends is one that the next may get.
  ghost predicate Carries<S, H>(w: Wiring<S, H>, busy: set<H>, sent: set<(S, nat)>)
    requires Sound(w)
  {
    forall p | p in sent && p.0 in w.hooks :: Sends(w, busy, sent, p.0, p.1, w.hooks[p.0])
  }

  ghost predicate Sends<S, H>(w: Wiring<S, H>, busy: set<H>, sent: set<(S, nat)>, s: S, x: nat, hooks: seq<H>)
    requires Sound(w) && Known(w, hooks) && s in w.hooks
  {
    forall i | 0 <= i < |hooks| && hooks[i] !in busy :: HookSends(w, sent, s, x, hooks[i])
  }

  ghost predicate HookSends<S, H>(w: Wiring<S, H>, sent: set<(S, nat)>, s: S, x: nat, h: H)
    requires Sound(w) && h in w.chain && s in w.hooks
  {
    && (s, x) in sent && h in w.hooks[s]
    && (w.chain[h].Some? ==> (w.chain[h].value, Output(w, w.chain[h].value, x)) in sent)
  }

  ghost predicate CallSent<S, H>(w: Wiring<S, H>, busy: set<H>, sent: set<(S, nat)>, c: Call<H>) {
    c.hook !in busy && exists u :: u in w.hooks && c.hook in w.hooks[u] && (u, c.value) in sent
  }

  // From a to r no signal or callback has got a value but those.
  ghost predicate SentOnly<S, H>(w: Wiring<S, H>, busy: set<H>, sent: set<(S, nat)>, a: State<S, H>, r: State<S, H>)
    requires Over(w, a) && Over(w, r)
  {
    && a.passed <= r.passed && a.calls <= r.calls
    && a.seen <= r.seen && |r.seen| - |a.seen| == |r.calls| - |a.calls|
    && (forall t | t in w.hooks :: r.value[t] == a.value[t] || (t, r.value[t]) in sent)
    && (forall t | t in w.hooks && t in r.passed && t !in a.passed :: (t, r.value[t]) in sent)
    && (forall t | t in w.hooks && t !in r.passed ::
          r.value[t] == a.value[t] && (t in r.init <==> t in a.init) && (t in r.floating <==> t in a.floating))
    && (forall i | |a.calls| <= i < |r.calls| :: CallSent(w, busy, sent, r.calls[i]))
  }

  lemma SentThen<S, H>(w: Wiring<S, H>, busy: set<H>, sent: set<(S, nat)>, a: State<S, H>, b: State<S, H>,
                       c: State<S, H>)
    requires Over(w, a) && Over(w, b) && Over(w, c)
    requires SentOnly(w, busy, sent, a, b) && SentOnly(w, busy, sent, b, c)
    ensures SentOnly(w, busy, sent, a, c)
  {
    forall i | |a.calls| <= i < |c.calls|
      ensures CallSent(w, busy, sent, c.calls[i])
    {
      assert i < |b.calls| ==> c.calls[i] == b.calls[i];
    }
    hide CallSent;
  }

  lemma {:induction false} RaiseSends<S, H>(w: Wiring<S, H>, busy: set<H>, sent: set<(S, nat)>, st: State<S, H>, s: S,
                                            v: nat, floating: bool)
    requires Sound(w) && Over(w, st) && s in w.hooks && busy <= st.busy
    requires Carries(w, busy, sent) && (s, Output(w, s, v)) in sent
    ensures SentOnly(w, busy, sent, st, Raise(w, st, s, v, floating))
    decreases w.chain.Keys - st.busy, 2, 0
  {
    RaiseUnfolds(w, st, s, v, floating);
    var output := Output(w, s, v);
    if !Blocked(w, st, s, output) {
      assert Sends(w, busy, sent, (s, output).0, (s, output).1, w.hooks[s]);
      SweepSends(w, busy, sent, Start(st, s, floating), s, w.hooks[s], output, floating);
    }
    hide Raise, Sweep, Output, Blocked, CallSent, Sends, Carries;
  }

  lemma {:induction false} SweepSends<S, H>(w: Wiring<S, H>, busy: set<H>, sent: set<(S, nat)>, st: State<S, H>, s: S,
                                            hooks: seq<H>, x: nat, floating: bool)
    requires Sound(w) && Over(w, st) && s in w.hooks && busy <= st.busy && Known(w, hooks)
    requires Carries(w, busy, sent) && Sends(w, busy, sent, s, x, hooks)
    ensures SentOnly(w, busy, sent, st, Sweep(w, st, hooks, x, floating))
    decreases w.chain.Keys - st.busy, 1, |hooks|
  {
    if hooks != [] {
      assert hooks[0] !in busy ==> HookSends(w, sent, s, x, hooks[0]);
      VisitSends(w, busy, sent, st, s, hooks[0], x, floating);
      var next := Visit(w, st, hooks[0], x, floating);
      SweepSends(w, busy, sent, next, s, hooks[1..], x, floating);
      assert Sweep(w, st, hooks, x, floating) == Sweep(w, next, hooks[1..], x, floating);
      hide Sweep, Visit, SentOnly, HookSends, Carries;
      SentThen(w, busy, sent, st, next, Sweep(w, next, hooks[1..], x, floating));
    }
  }

  lemma {:induction false} VisitSends<S, H>(w: Wiring<S, H>, busy: set<H>, sent: set<(S, nat)>, st: State<S, H>, s: S,
                                            h: H, x: nat, floating: bool)
    requires Sound(w) && Over(w, st) && s in w.hooks && busy <= st.busy && h in w.chain
    requires Carries(w, busy, sent) && (h !in busy ==> HookSends(w, sent, s, x, h))
    ensures SentOnly(w, busy, sent, st, Visit(w, st, h, x, floating))
    decreases w.chain.Keys - st.busy, 0, 0
  {
    VisitUnfolds(w, st, h, x, floating);
    if h !in st.busy {
      var held := Notify(w, st.(busy := st.busy + {h}), h, x);
      NotifySends(w, busy, sent, st, s, h, x);
      if w.chain[h].Some? {
        RaiseSends(w, busy, sent, held, w.chain[h].value, x, floating);
        SentThen(w, busy, sent, st, held, Raise(w, held, w.chain[h].value, x, floating));
      }
      var done := if w.chain[h].Some? then Raise(w, held, w.chain[h].value, x, floating) else held;
      hide Raise, Visit, Notify, CallSent, Output, Carries, SentOnly;
      FreedSends(w, busy, sent, st, done, h);
    } else {
      hide Raise, Visit, Notify, CallSent, Output, Carries;
    }
  }

  lemma NotifySends<S, H>(w: Wiring<S, H>, busy: set<H>, sent: set<(S, nat)>, st: State<S, H>, s: S, h: H, x: nat)
    requires Sound(w) && Over(w, st) && s in w.hooks && h in w.chain && h !in busy && HookSends(w, sent, s, x, h)
    ensures var held := Notify(w, st.(busy := st.busy + {h}), h, x);
      Over(w, held) && SentOnly(w, busy, sent, st, held)
  {
    assert CallSent(w, busy, sent, Call(h, x));
    hide Output, CallSent;
  }

  lemma FreedSends<S, H>(w: Wiring<S, H>, busy: set<H>, sent: set<(S, nat)>, st: State<S, H>, done: State<S, H>, h: H)
    requires Over(w, st) && Over(w, done) && SentOnly(w, busy, sent, st, done)
    ensures SentOnly(w, busy, sent, st, done.(busy := done.busy - {h}))
  {
    hide CallSent;
  }

  // The chain leads from s to t, and brings it x.
  ghost predicate ChainBrings<S, H>(w: Wiring<S, H>, st: State<S, H>, s: S, v: nat, path: seq<H>, t: S, x: nat)
    requires Sound(w)
  {
    Chained(w, st, s, path, t) && Brought(w, s, v, path) == x
  }

  lemma {:induction false} ChainOn<S, H>(w: Wiring<S, H>, st: State<S, H>, s: S, v: nat, path: seq<H>, t: S, x: nat,
                                         h: H)
    requires Sound(w) && ChainBrings(w, st, s, v, path, t, x)
    requires t in w.hooks && h in w.hooks[t] && h in w.chain && h !in st.busy && w.chain[h].Some?
    ensures var u := w.chain[h].value; ChainBrings(w, st, s, v, path + [h], u, Output(w, u, x))
    decreases |path|
  {
    if path != [] {
      assert (path + [h])[1..] == path[1..] + [h];
      ChainOn(w, st, w.chain[path[0]].value, Output(w, s, v), path[1..], t, x, h);
    } else {
      assert [h][1..] == [];
    }
  }

  lemma {:induction false} BroughtIsOneOf<S, H>(w: Wiring<S, H>, s: S, v: nat, path: seq<H>)
    ensures Brought(w, s, v, path) in {v, 0, 1}
    decreases |path|
  {
    if path != [] && path[0] in w.chain && w.chain[path[0]].Some? {
      BroughtIsOneOf(w, w.chain[path[0]].value, Output(w, s, v), path[1..]);
    }
  }

  // All that the chains from s bring.
  lemma ChainsCarry<S, H>(w: Wiring<S, H>, st: State<S, H>, s: S, v: nat) returns (sent: set<(S, nat)>)
    requires Sound(w) && s in w.hooks
    ensures Carries(w, st.busy, sent) && (s, Output(w, s, v)) in sent
    ensures forall p | p in sent :: p.0 in w.hooks && exists path :: ChainBrings(w, st, s, v, path, p.0, p.1)
  {
    sent := set t, x |
      t in w.hooks && x in {v, 0, 1} && (exists path :: ChainBrings(w, st, s, v, path, t, x)) :: (t, x);
    assert ChainBrings(w, st, s, v, [], s, Output(w, s, v));
    forall p, i | p in sent && p.0 in w.hooks && 0 <= i < |w.hooks[p.0]| && w.hooks[p.0][i] !in st.busy
      ensures HookSends(w, sent, p.0, p.1, w.hooks[p.0][i])
    {
      var h := w.hooks[p.0][i];
      if w.chain[h].Some? {
        var path :| ChainBrings(w, st, s, v, path, p.0, p.1);
        ChainOn(w, st, s, v, path, p.0, p.1, h);
        BroughtIsOneOf(w, s, v, path + [h]);
      }
    }
    hide ChainBrings, Output;
  }

  // On every graph a signal that has been raised ends with a value that a chain of free hooks brings
  // it, every other signal is as it was, and each callback called is on a free hook of a signal, with
  // a value that such a chain brings that signal.
  lemma RaisedByChains<S, H>(w: Wiring<S, H>, st: State<S, H>, s: S, v: nat, floating: bool)
    requires Sound(w) && Over(w, st) && st.passed == {} && s in w.hooks
    ensures var r := Raise(w, st, s, v, floating);
      && (forall t | t in w.hooks ::
            if t in r.passed then exists path :: ChainBrings(w, st, s, v, path, t, r.value[t])
            else
              r.value[t] == st.value[t] && (t in r.init <==> t in st.init) && (t in r.floating <==> t in st.floating))
      && st.calls <= r.calls
      && forall i | |st.calls| <= i < |r.calls| ::
           && r.calls[i].hook !in st.busy
           && exists u, path :: u in w.hooks && r.calls[i].hook in w.hooks[u]
                && ChainBrings(w, st, s, v, path, u, r.calls[i].value)
  {
    var sent := ChainsCarry(w, st, s, v);
    RaiseSends(w, st.busy, sent, st, s, v, floating);
    hide Raise, Carries, ChainBrings;
    var r := Raise(w, st, s, v, floating);
    forall i | |st.calls| <= i < |r.calls|
      ensures r.calls[i].hook !in st.busy
      ensures exists u, path :: u in w.hooks && r.calls[i].hook in w.hooks[u]
                && ChainBrings(w, st, s, v, path, u, r.calls[i].value)
    {
      assert CallSent(w, st.busy, sent, r.calls[i]);
    }
  }

  lemma ChainIsFollowed<S, H>(w: Wiring<S, H>, st: State<S, H>, s: S, v: nat, floating: bool, path: seq<H>, t: S)
    requires Sound(w) && Over(w, st) && st.passed == {} && w.filtered == {} && s in w.hooks && t in w.hooks
    requires Chained(w, st, s, path, t)
    ensures t in Raise(w, st, s, v, floating).passed
  {
    var p := Plain(w);
    var r := Raise(p, st, s, v, floating);
    RaiseTracks(w, st, st, s, v, v, floating);
    ChainedIsPath(w, st, s, path, t, v);
    RaiseEffect(p, st, s, v, floating);
    hide Raise;
    BlockedApart(p, st, r, s, v, floating);
    PathIsFollowed(p, st, r, s, path, t, v, floating);
  }

  // On a graph without filters, inverted signals and all, a raise still reaches exactly the signals
  // that chains of free hooks lead to. They end with a value that such a chain brings, with their flags
  // set and their free hooks notified, and every other signal is as it was.
  lemma InvertedReaches<S, H>(w: Wiring<S, H>, st: State<S, H>, s: S, v: nat, floating: bool, t: S)
    requires Sound(w) && Over(w, st) && st.passed == {} && w.filtered == {} && s in w.hooks && t in w.hooks
    ensures var r := Raise(w, st, s, v, floating);
      && r.busy == st.busy
      && (if exists path :: Chained(w, st, s, path, t) then
            && (exists path :: ChainBrings(w, st, s, v, path, t, r.value[t]))
            && t !in r.init && (t in r.floating <==> floating)
            && forall i | 0 <= i < |w.hooks[t]| && w.hooks[t][i] !in st.busy && w.notify[w.hooks[t][i]].Some? ::
                 IsCalled(r, w.hooks[t][i])
          else
            r.value[t] == st.value[t] && (t in r.init <==> t in st.init) && (t in r.floating <==> t in st.floating))
  {
    RaisedByChains(w, st, s, v, floating);
    hide Raise, Chained, Brought;
    if path :| Chained(w, st, s, path, t) {
      ChainIsFollowed(w, st, s, v, floating, path, t);
      ChainedIsFlagged(w, st, s, v, floating, path, t);
    }
  }

  lemma ChainedIsFlagged<S, H>(w: Wiring<S, H>, st: State<S, H>, s: S, v: nat, floating: bool, path: seq<H>, t: S)
    requires Sound(w) && Over(w, st) && st.passed == {} && w.filtered == {} && s in w.hooks && t in w.hooks
    requires Chained(w, st, s, path, t)
    ensures var r := Raise(w, st, s, v, floating);
      && t !in r.init && (t in r.floating <==> floating)
      && forall i | 0 <= i < |w.hooks[t]| && w.hooks[t][i] !in st.busy && w.notify[w.hooks[t][i]].Some? ::
           IsCalled(r, w.hooks[t][i])
  {
    RaiseTracks(w, st, st, s, v, v, floating);
    ChainedIsPath(w, st, s, path, t, v);
    RaiseReaches(Plain(w), st, s, v, floating, t);
    hide Raise, Path, Chained;
    var r, r' := Raise(w, st, s, v, floating), Raise(Plain(w), st, s, v, floating);
    forall h | Call(h, v) in r'.calls
      ensures IsCalled(r, h)
    {
      var k :| 0 <= k < |r'.calls| && r'.calls[k] == Call(h, v);
      assert r.calls[k].hook == h;
    }
  }

  // Where all chains to a signal bring it the same value, it ends with that one.
  lemma AgreeingChains<S, H>(w: Wiring<S, H>, st: State<S, H>, s: S, v: nat, floating: bool, path: seq<H>, t: S, x: nat)
    requires Sound(w) && Over(w, st) && st.passed == {} && w.filtered == {} && s in w.hooks && t in w.hooks
    requires ChainBrings(w, st, s, v, path, t, x)
    requires forall p :: Chained(w, st, s, p, t) ==> Brought(w, s, v, p) == x
    ensures Raise(w, st, s, v, floating).value[t] == x
  {
    InvertedReaches(w, st, s, v, floating, t);
    hide Raise;
  }

  ghost predicate IsCalled<S, H>(r: State<S, H>, h: H) {
    exists k | 0 <= k < |r.calls| :: r.calls[k].hook == h
  }

  // ---- How many calls, and in which order ----

  // A hook is in a list at one place.
  ghost predicate NoneTwice<H>(hooks: seq<H>) {
    forall i, j | 0 <= i < j < |hooks| :: hooks[i] != hooks[j]
  }

  ghost predicate Distinct<S, H>(w: Wiring<S, H>) {
    forall s | s in w.hooks :: NoneTwice(w.hooks[s])
  }

  // A walk starts with a hook of the list and goes on with one of the signal that the hook before is
  // chained to; none of its hooks is busy, and none comes twice.
  ghost predicate Walk<S, H>(w: Wiring<S, H>, busy: set<H>, hooks: seq<H>, path: seq<H>)
    requires Sound(w)
    decreases |path|
  {
    && path != [] && path[0] in hooks && path[0] !in busy && path[0] in w.chain
    && (|path| == 1
        || (w.chain[path[0]].Some? && Walk(w, busy + {path[0]}, w.hooks[w.chain[path[0]].value], path[1..])))
  }

  // The order of the walks: at the first difference, that of the list; a walk before those that go on from it.
  ghost predicate Precedes<S, H>(w: Wiring<S, H>, hooks: seq<H>, p: seq<H>, q: seq<H>)
    requires Sound(w) && p != [] && q != []
    decreases |p|
  {
    if p[0] == q[0] then
      && |q| > 1
      && (|p| == 1 || (p[0] in w.chain && w.chain[p[0]].Some?
                       && Precedes(w, w.hooks[w.chain[p[0]].value], p[1..], q[1..])))
    else exists i, j | 0 <= i < j < |hooks| :: hooks[i] == p[0] && hooks[j] == q[0]
  }

  // The call at the end of a walk from a signal with value x.
  ghost function CallOf<S, H>(w: Wiring<S, H>, x: nat, path: seq<H>): Call<H>
    requires path != [] && (|path| > 1 ==> path[0] in w.chain && w.chain[path[0]].Some?)
  {
    Call(path[|path| - 1],
         if |path| == 1 then x else Brought(w, w.chain[path[0]].value, x, path[1..|path| - 1]))
  }

  ghost predicate Notifies<S, H>(w: Wiring<S, H>, path: seq<H>)
    requires path != []
  {
    path[|path| - 1] in w.notify && w.notify[path[|path| - 1]].Some?
  }

  ghost predicate WalkCalls<S, H>(w: Wiring<S, H>, busy: set<H>, hooks: seq<H>, x: nat, path: seq<H>, c: Call<H>)
    requires Sound(w)
  {
    Walk(w, busy, hooks, path) && Notifies(w, path) && c == CallOf(w, x, path)
  }

  // These are the calls at the end of those walks, which are all different and in order.
  ghost predicate Lists<S, H>(w: Wiring<S, H>, busy: set<H>, hooks: seq<H>, x: nat, paths: seq<seq<H>>,
                              calls: seq<Call<H>>)
    requires Sound(w)
  {
    && |paths| == |calls|
    && (forall i | 0 <= i < |paths| :: WalkCalls(w, busy, hooks, x, paths[i], calls[i]))
    && (forall i, j | 0 <= i < j < |paths| :: Precedes(w, hooks, paths[i], paths[j]))
  }

  lemma WalkInList<S, H>(w: Wiring<S, H>, busy: set<H>, some: seq<H>, hooks: seq<H>, x: nat, path: seq<H>, c: Call<H>)
    requires Sound(w)
    ensures WalkCalls(w, busy, some, x, path, c) && path[0] in hooks ==> WalkCalls(w, busy, hooks, x, path, c)
    ensures WalkCalls(w, busy, some, x, path, c) ==> path != [] && path[0] in some
  {
    hide CallOf, Notifies;
  }

  lemma PrecedesInList<S, H>(w: Wiring<S, H>, some: seq<H>, hooks: seq<H>, k: nat, p: seq<H>, q: seq<H>)
    requires Sound(w) && p != [] && q != [] && k + |some| <= |hooks| && some == hooks[k..k + |some|]
    requires Precedes(w, some, p, q)
    ensures Precedes(w, hooks, p, q)
  {
    if p[0] != q[0] {
      var i, j :| 0 <= i < j < |some| && some[i] == p[0] && some[j] == q[0];
      assert hooks[k + i] == p[0] && hooks[k + j] == q[0];
    }
  }

  lemma FirstPrecedes<S, H>(w: Wiring<S, H>, hooks: seq<H>, p: seq<H>, q: seq<H>)
    requires Sound(w) && p != [] && q != [] && hooks != [] && NoneTwice(hooks)
    requires p[0] == hooks[0] && q[0] in hooks[1..]
    ensures Precedes(w, hooks, p, q)
  {
    var j :| 0 <= j < |hooks[1..]| && hooks[1..][j] == q[0];
    assert hooks[j + 1] == q[0] && hooks[0] != hooks[j + 1];
  }

  // Those of the first hook, then those of the rest.
  lemma ListsJoin<S, H>(w: Wiring<S, H>, busy: set<H>, hooks: seq<H>, x: nat, a: seq<seq<H>>, ac: seq<Call<H>>,
                        b: seq<seq<H>>, bc: seq<Call<H>>)
    requires Sound(w) && hooks != [] && NoneTwice(hooks)
    requires Lists(w, busy, [hooks[0]], x, a, ac) && Lists(w, busy, hooks[1..], x, b, bc)
    ensures Lists(w, busy, hooks, x, a + b, ac + bc)
  {
    hide Walk, Precedes, WalkCalls, NoneTwice;
    forall i | 0 <= i < |a + b|
      ensures WalkCalls(w, busy, hooks, x, (a + b)[i], (ac + bc)[i])
      ensures (a + b)[i] != [] && (a + b)[i][0] in if i < |a| then [hooks[0]] else hooks[1..]
    {
      if i < |a| {
        WalkInList(w, busy, [hooks[0]], hooks, x, a[i], ac[i]);
      } else {
        WalkInList(w, busy, hooks[1..], hooks, x, b[i - |a|], bc[i - |a|]);
      }
    }
    forall i, j | 0 <= i < j < |a + b|
      ensures Precedes(w, hooks, (a + b)[i], (a + b)[j])
    {
      if j < |a| {
        PrecedesInList(w, [hooks[0]], hooks, 0, a[i], a[j]);
      } else if i < |a| {
        FirstPrecedes(w, hooks, a[i], b[j - |a|]);
      } else {
        PrecedesInList(w, hooks[1..], hooks, 1, b[i - |a|], b[j - |a|]);
      }
    }
  }

  ghost function Prefixed<H>(h: H, paths: seq<seq<H>>): (r: seq<seq<H>>)
    ensures |r| == |paths|
    ensures forall i | 0 <= i < |r| :: r[i] == [h] + paths[i]
  {
    seq(|paths|, i requires 0 <= i < |paths| => [h] + paths[i])
  }

  // A walk of one hook more.
  lemma WalkOn<S, H>(w: Wiring<S, H>, busy: set<H>, h: H, x: nat, path: seq<H>, c: Call<H>)
    requires Sound(w) && h in w.chain && w.chain[h].Some? && h !in busy
    requires var u := w.chain[h].value; WalkCalls(w, busy + {h}, w.hooks[u], Output(w, u, x), path, c)
    ensures WalkCalls(w, busy, [h], x, [h] + path, c)
  {
    var u, n := w.chain[h].value, |path| - 1;
    assert ([h] + path)[1..] == path && ([h] + path)[1..|[h] + path| - 1] == path[..n];
    if n > 0 {
      assert path[..n][1..] == path[1..n];
    }
    assert Brought(w, u, x, path[..n])
      == if n == 0 then Output(w, u, x) else Brought(w, w.chain[path[0]].value, Output(w, u, x), path[1..n]);
    hide Output;
  }

  lemma PrefixedPrecedes<S, H>(w: Wiring<S, H>, h: H, p: seq<H>, q: seq<H>)
    requires Sound(w) && h in w.chain && w.chain[h].Some? && p != [] && q != []
    requires Precedes(w, w.hooks[w.chain[h].value], p, q)
    ensures Precedes(w, [h], [h] + p, [h] + q)
  {
    assert ([h] + p)[1..] == p && ([h] + q)[1..] == q;
  }

  // The hook itself, then the walks that go on from it.
  lemma ListsPrefixed<S, H>(w: Wiring<S, H>, busy: set<H>, h: H, x: nat, paths: seq<seq<H>>, calls: seq<Call<H>>)
    requires Sound(w) && h in w.chain && w.chain[h].Some? && h !in busy
    requires var u := w.chain[h].value; Lists(w, busy + {h}, w.hooks[u], Output(w, u, x), paths, calls)
    ensures Lists(w, busy, [h], x, Prefixed(h, paths), calls)
    ensures w.notify[h].Some? ==> Lists(w, busy, [h], x, [[h]] + Prefixed(h, paths), [Call(h, x)] + calls)
  {
    var all := Prefixed(h, paths);
    forall i | 0 <= i < |all|
      ensures WalkCalls(w, busy, [h], x, all[i], calls[i]) && Precedes(w, [h], [h], all[i])
    {
      WalkOn(w, busy, h, x, paths[i], calls[i]);
      assert paths[i] != [];
    }
    assert w.notify[h].Some? ==> WalkCalls(w, busy, [h], x, [h], Call(h, x));
    hide Walk, WalkCalls, Output;
    forall i, j | 0 <= i < j < |all|
      ensures Precedes(w, [h], all[i], all[j])
    {
      WalkInList(w, busy, [h], [h], x, all[i], calls[i]);
      WalkInList(w, busy, [h], [h], x, all[j], calls[j]);
      NotEmpty(w, busy + {h}, w.hooks[w.chain[h].value], Output(w, w.chain[h].value, x), paths, calls, i);
      NotEmpty(w, busy + {h}, w.hooks[w.chain[h].value], Output(w, w.chain[h].value, x), paths, calls, j);
      PrefixedPrecedes(w, h, paths[i], paths[j]);
    }
    hide Precedes;
  }

  lemma NotEmpty<S, H>(w: Wiring<S, H>, busy: set<H>, hooks: seq<H>, x: nat, paths: seq<seq<H>>,
                       calls: seq<Call<H>>, i: nat)
    requires Sound(w) && Lists(w, busy, hooks, x, paths, calls) && i < |paths|
    ensures paths[i] != []
  {
    assert WalkCalls(w, busy, hooks, x, paths[i], calls[i]);
  }

  // The calls of a raise, on every graph: each is made at the end of a walk over free hooks from the
  // signal, with the value that the walk brings, and one walk makes one call; they come in the order
  // of the walks. Without filters every walk to a hook with a callback makes its call.
  lemma {:induction false} RaiseLists<S, H>(w: Wiring<S, H>, st: State<S, H>, s: S, v: nat, floating: bool)
    returns (paths: seq<seq<H>>, calls: seq<Call<H>>)
    requires Sound(w) && Distinct(w) && Over(w, st) && s in w.hooks
    ensures Raise(w, st, s, v, floating).calls == st.calls + calls
    ensures Lists(w, st.busy, w.hooks[s], Output(w, s, v), paths, calls)
    ensures w.filtered == {} ==>
      forall path :: Walk(w, st.busy, w.hooks[s], path) && Notifies(w, path) ==> path in paths
    decreases w.chain.Keys - st.busy, 2, 0
  {
    RaiseUnfolds(w, st, s, v, floating);
    if Blocked(w, st, s, Output(w, s, v)) {
      paths, calls := [], [];
    } else {
      paths, calls := SweepLists(w, Start(st, s, floating), w.hooks[s], Output(w, s, v), floating);
    }
    hide Raise, Sweep, Output, Walk, Lists, Notifies;
  }

  lemma {:induction false} SweepLists<S, H>(w: Wiring<S, H>, st: State<S, H>, hooks: seq<H>, x: nat, floating: bool)
    returns (paths: seq<seq<H>>, calls: seq<Call<H>>)
    requires Sound(w) && Distinct(w) && Over(w, st) && Known(w, hooks) && NoneTwice(hooks)
    ensures Sweep(w, st, hooks, x, floating).calls == st.calls + calls
    ensures Lists(w, st.busy, hooks, x, paths, calls)
    ensures w.filtered == {} ==> forall path :: Walk(w, st.busy, hooks, path) && Notifies(w, path) ==> path in paths
    decreases w.chain.Keys - st.busy, 1, |hooks|
  {
    if hooks == [] {
      paths, calls := [], [];
    } else {
      var next := Visit(w, st, hooks[0], x, floating);
      var a, ac := VisitLists(w, st, hooks[0], x, floating);
      var b, bc := SweepLists(w, next, hooks[1..], x, floating);
      assert Sweep(w, st, hooks, x, floating) == Sweep(w, next, hooks[1..], x, floating);
      ListsJoin(w, st.busy, hooks, x, a, ac, b, bc);
      paths, calls := a + b, ac + bc;
      forall path | w.filtered == {} && Walk(w, st.busy, hooks, path) && Notifies(w, path)
        ensures path in paths
      {
        WalkFirstOrRest(w, st.busy, hooks, path);
      }
      hide Sweep, Visit, Lists, Walk, Notifies, Distinct, Sound;
      Associates(st.calls, ac, bc);
    }
  }

  lemma WalkFirstOrRest<S, H>(w: Wiring<S, H>, busy: set<H>, hooks: seq<H>, path: seq<H>)
    requires Sound(w) && hooks != [] && Walk(w, busy, hooks, path)
    ensures Walk(w, busy, [hooks[0]], path) || Walk(w, busy, hooks[1..], path)
  {
    assert path[0] == hooks[0] || path[0] in hooks[1..];
  }

  lemma {:induction false} VisitLists<S, H>(w: Wiring<S, H>, st: State<S, H>, h: H, x: nat, floating: bool)
    returns (paths: seq<seq<H>>, calls: seq<Call<H>>)
    requires Sound(w) && Distinct(w) && Over(w, st) && h in w.chain
    ensures Visit(w, st, h, x, floating).calls == st.calls + calls
    ensures Lists(w, st.busy, [h], x, paths, calls)
    ensures w.filtered == {} ==> forall path :: Walk(w, st.busy, [h], path) && Notifies(w, path) ==> path in paths
    decreases w.chain.Keys - st.busy, 0, 0
  {
    hide *;
    VisitUnfolds(w, st, h, x, floating);
    NotifyCalls(w, st, h, x);
    BusyEndsWalks(w, st.busy, h, x);
    if h in st.busy {
      paths, calls := [], [];
    } else {
      var itself := if w.notify[h].Some? then [Call(h, x)] else [];
      var held := Notify(w, st.(busy := st.busy + {h}), h, x);
      if w.chain[h].Some? {
        var rest, more := RaiseLists(w, held, w.chain[h].value, x, floating);
        ListsPrefixed(w, st.busy, h, x, rest, more);
        paths, calls := (if w.notify[h].Some? then [[h]] else []) + Prefixed(h, rest), itself + more;
        if w.filtered == {} {
          AllPrefixed(w, st.busy, h, rest);
        }
        assert [] + Prefixed(h, rest) == Prefixed(h, rest) && [] + more == more;
        Associates(st.calls, itself, more);
      } else {
        paths, calls := if w.notify[h].Some? then [[h]] else [], itself;
        UnchainedLists(w, st.busy, h, x);
      }
    }
  }

  lemma NotifyCalls<S, H>(w: Wiring<S, H>, st: State<S, H>, h: H, x: nat)
    requires h in w.notify
    ensures Notify(w, st.(busy := st.busy + {h}), h, x).calls
      == st.calls + if w.notify[h].Some? then [Call(h, x)] else []
  {
  }

  lemma BusyEndsWalks<S, H>(w: Wiring<S, H>, busy: set<H>, h: H, x: nat)
    requires Sound(w)
    ensures Lists(w, busy, [h], x, [], [])
    ensures h in busy ==> forall path :: !Walk(w, busy, [h], path)
  {
  }

  lemma UnchainedLists<S, H>(w: Wiring<S, H>, busy: set<H>, h: H, x: nat)
    requires Sound(w) && h in w.chain && w.chain[h].None? && h !in busy
    ensures h in w.notify
    ensures w.notify[h].Some? ==> Lists(w, busy, [h], x, [[h]], [Call(h, x)])
    ensures forall path :: Walk(w, busy, [h], path) && Notifies(w, path) ==> path == [h] && w.notify[h].Some?
  {
    forall path | Walk(w, busy, [h], path)
      ensures path == [h]
    {
      assert path == [path[0]];
    }
    if w.notify[h].Some? {
      assert WalkCalls(w, busy, [h], x, [h], Call(h, x));
    }
  }

  lemma AllPrefixed<S, H>(w: Wiring<S, H>, busy: set<H>, h: H, rest: seq<seq<H>>)
    requires Sound(w) && h in w.chain && w.chain[h].Some? && h in w.notify
    requires var u := w.chain[h].value;
      forall path :: Walk(w, busy + {h}, w.hooks[u], path) && Notifies(w, path) ==> path in rest
    ensures var all := (if w.notify[h].Some? then [[h]] else []) + Prefixed(h, rest);
      forall path :: Walk(w, busy, [h], path) && Notifies(w, path) ==> path in all
  {
    var all := (if w.notify[h].Some? then [[h]] else []) + Prefixed(h, rest);
    forall path | Walk(w, busy, [h], path) && Notifies(w, path)
      ensures path in all
    {
      WalkSplits(w, busy, h, path);
      hide Walk;
      if |path| > 1 {
        var i :| 0 <= i < |rest| && rest[i] == path[1..];
        assert Prefixed(h, rest)[i] == path;
        assert path in Prefixed(h, rest);
      } else {
        assert path == [h];
      }
    }
  }

  lemma WalkSplits<S, H>(w: Wiring<S, H>, busy: set<H>, h: H, path: seq<H>)
    requires Sound(w) && h in w.chain && Walk(w, busy, [h], path) && Notifies(w, path)
    ensures path[0] == h && h !in busy
    ensures |path| > 1 ==>
      && w.chain[h].Some? && Walk(w, busy + {h}, w.hooks[w.chain[h].value], path[1..])
      && path[1..] != [] && Notifies(w, path[1..]) && path == [h] + path[1..]
  {
  }

  ghost function CountCalls<H>(calls: seq<Call<H>>, h: H): nat {
    if calls == [] then 0
    else CountCalls(calls[..|calls| - 1], h) + if calls[|calls| - 1].hook == h then 1 else 0
  }

  lemma {:induction false} PrecedesItself<S, H>(w: Wiring<S, H>, hooks: seq<H>, p: seq<H>)
    requires Sound(w) && p != [] && Precedes(w, hooks, p, p)
    ensures false
    decreases |p|
  {
    PrecedesItself(w, w.hooks[w.chain[p[0]].value], p[1..]);
  }

  // Each hook is counted once for every walk that ends with it.
  lemma {:induction false} CountIsWalks<S, H>(w: Wiring<S, H>, busy: set<H>, hooks: seq<H>, x: nat,
                                              paths: seq<seq<H>>, calls: seq<Call<H>>, h: H)
    requires Sound(w) && Lists(w, busy, hooks, x, paths, calls)
    ensures CountCalls(calls, h) == |Ending(paths, h)|
    decreases |paths|
  {
    if paths == [] {
      assert Ending(paths, h) == {};
    } else {
      hide *;
      var n := |paths| - 1;
      ListsFront(w, busy, hooks, x, paths, calls);
      CountIsWalks(w, busy, hooks, x, paths[..n], calls[..n], h);
      CountLast(calls, h);
      OneEndingMore(paths, h);
    }
  }

  ghost function Ending<H>(paths: seq<seq<H>>, h: H): set<seq<H>> {
    set path | path in paths && path != [] && path[|path| - 1] == h
  }

  lemma CountLast<H>(calls: seq<Call<H>>, h: H)
    requires calls != []
    ensures var n := |calls| - 1;
      CountCalls(calls, h) == CountCalls(calls[..n], h) + if calls[n].hook == h then 1 else 0
  {
  }

  lemma OneEndingMore<H>(paths: seq<seq<H>>, h: H)
    requires paths != [] && paths[|paths| - 1] != [] && paths[|paths| - 1] !in paths[..|paths| - 1]
    ensures var n := |paths| - 1;
      var last := paths[n];
      |Ending(paths, h)| == |Ending(paths[..n], h)| + if last[|last| - 1] == h then 1 else 0
  {
    var n := |paths| - 1;
    var last := paths[n];
    assert paths == paths[..n] + [last];
    assert Ending(paths, h) == Ending(paths[..n], h) + if last[|last| - 1] == h then {last} else {};
  }

  lemma ListsFront<S, H>(w: Wiring<S, H>, busy: set<H>, hooks: seq<H>, x: nat, paths: seq<seq<H>>,
                         calls: seq<Call<H>>)
    requires Sound(w) && Lists(w, busy, hooks, x, paths, calls) && paths != []
    ensures |calls| == |paths|
    ensures var n := |paths| - 1;
      && Lists(w, busy, hooks, x, paths[..n], calls[..n])
      && paths[n] != [] && calls[n].hook == paths[n][|paths[n]| - 1] && paths[n] !in paths[..n]
  {
    var n := |paths| - 1;
    assert WalkCalls(w, busy, hooks, x, paths[n], calls[n]);
    hide Walk, Precedes, Notifies;
    if i :| 0 <= i < n && paths[i] == paths[n] {
      assert Precedes(w, hooks, paths[i], paths[n]);
      PrecedesItself(w, hooks, paths[n]);
    }
    hide WalkCalls;
  }

  // Without filters a callback is called as often as there are walks over free hooks to its hook:
  // once for a hook that one walk alone leads to.
  lemma NumberOfCalls<S, H>(w: Wiring<S, H>, st: State<S, H>, s: S, v: nat, floating: bool, h: H,
                            walks: set<seq<H>>)
    requires Sound(w) && Distinct(w) && Over(w, st) && s in w.hooks && w.filtered == {}
    requires h in w.notify && w.notify[h].Some?
    requires forall path ::
      path in walks <==> Walk(w, st.busy, w.hooks[s], path) && path != [] && path[|path| - 1] == h
    ensures st.calls <= Raise(w, st, s, v, floating).calls
    ensures CountCalls(Raise(w, st, s, v, floating).calls[|st.calls|..], h) == |walks|
  {
    hide *;
    var x := Output(w, s, v);
    var paths, calls := RaiseLists(w, st, s, v, floating);
    CountIsWalks(w, st.busy, w.hooks[s], x, paths, calls, h);
    EndingAreWalks(w, st.busy, w.hooks[s], x, paths, calls, h);
    AllNotify(w, h);
    SameElements(Ending(paths, h), walks);
    assert (st.calls + calls)[|st.calls|..] == calls;
  }

  lemma SameElements<X>(a: set<X>, b: set<X>)
    requires forall x :: x in a <==> x in b
    ensures a == b
  {
  }

  lemma EndingAreWalks<S, H>(w: Wiring<S, H>, busy: set<H>, hooks: seq<H>, x: nat, paths: seq<seq<H>>,
                             calls: seq<Call<H>>, h: H)
    requires Sound(w) && Lists(w, busy, hooks, x, paths, calls)
    ensures forall path | path in Ending(paths, h) :: Walk(w, busy, hooks, path)
    ensures forall path :: path in Ending(paths, h) <==> path in paths && path != [] && path[|path| - 1] == h
  {
    forall path | path in Ending(paths, h)
      ensures Walk(w, busy, hooks, path)
    {
      var i :| 0 <= i < |paths| && paths[i] == path;
      assert WalkCalls(w, busy, hooks, x, path, calls[i]);
    }
  }

  lemma AllNotify<S, H>(w: Wiring<S, H>, h: H)
    requires h in w.notify && w.notify[h].Some?
    ensures forall path :: path != [] && path[|path| - 1] == h ==> Notifies(w, path)
  {
  }

  // The callbacks of the free hooks of one signal, in the order of its list.
  ghost function OwnCalls<S, H>(w: Wiring<S, H>, busy: set<H>, hooks: seq<H>, x: nat): seq<Call<H>>
    requires Sound(w) && Known(w, hooks)
  {
    if hooks == [] then []
    else
      (if hooks[0] !in busy && w.notify[hooks[0]].Some? then [Call(hooks[0], x)] else [])
      + OwnCalls(w, busy, hooks[1..], x)
  }

  lemma {:induction false} UnchainedSweep<S, H>(w: Wiring<S, H>, st: State<S, H>, hooks: seq<H>, x: nat,
                                                floating: bool)
    requires Sound(w) && Over(w, st) && Known(w, hooks) && forall h | h in hooks :: w.chain[h].None?
    ensures Sweep(w, st, hooks, x, floating).calls == st.calls + OwnCalls(w, st.busy, hooks, x)
    decreases |hooks|
  {
    if hooks != [] {
      var next, first := Visit(w, st, hooks[0], x, floating), OwnCalls(w, st.busy, [hooks[0]], x);
      UnchainedVisit(w, st, hooks[0], x, floating);
      UnchainedSweep(w, next, hooks[1..], x, floating);
      assert Sweep(w, st, hooks, x, floating) == Sweep(w, next, hooks[1..], x, floating);
      OwnCallsFirst(w, st.busy, hooks, x);
      hide Sweep, Visit, OwnCalls;
      Associates(st.calls, first, OwnCalls(w, st.busy, hooks[1..], x));
    }
  }

  lemma UnchainedVisit<S, H>(w: Wiring<S, H>, st: State<S, H>, h: H, x: nat, floating: bool)
    requires Sound(w) && Over(w, st) && h in w.chain && w.chain[h].None?
    ensures Known(w, [h]) && Visit(w, st, h, x, floating).calls == st.calls + OwnCalls(w, st.busy, [h], x)
  {
    VisitUnfolds(w, st, h, x, floating);
    NotifyCalls(w, st, h, x);
    hide Visit, Notify, Raise, Output;
  }

  lemma OwnCallsFirst<S, H>(w: Wiring<S, H>, busy: set<H>, hooks: seq<H>, x: nat)
    requires Sound(w) && Known(w, hooks) && hooks != []
    ensures Known(w, [hooks[0]]) && Known(w, hooks[1..])
    ensures OwnCalls(w, busy, hooks, x) == OwnCalls(w, busy, [hooks[0]], x) + OwnCalls(w, busy, hooks[1..], x)
  {
    assert [hooks[0]][1..] == [];
  }

  // A raise that is not blocked calls each of its own callbacks once, if it goes no further.
  lemma UnchainedCalls<S, H>(w: Wiring<S, H>, st: State<S, H>, s: S, v: nat, floating: bool)
    requires Sound(w) && Over(w, st) && s in w.hooks && !Blocked(w, st, s, Output(w, s, v))
    requires forall h | h in w.hooks[s] :: w.chain[h].None?
    ensures Raise(w, st, s, v, floating).calls
      == st.calls + OwnCalls(w, st.busy, w.hooks[s], Output(w, s, v))
  {
    UnchainedSweep(w, Start(st, s, floating), w.hooks[s], Output(w, s, v), floating);
    RaiseUnfolds(w, st, s, v, floating);
    hide Raise, Sweep, Output, OwnCalls;
  }

  // ---- What the callbacks find in their signal ----

  // A callback was called with x, after the first n, when its signal had the value was.
  ghost predicate CalledSeeing<S, H>(st: State<S, H>, n: nat, h: H, x: nat, was: nat) {
    exists i | n <= i < |st.calls| && i < |st.seen| :: st.calls[i] == Call(h, x) && st.seen[i] == was
  }

  // What the hook is chained to sends its values past s.
  ghost predicate LeadsAway<S, H>(w: Wiring<S, H>, sent: set<(S, nat)>, h: H, x: nat, s: S)
    requires h in w.chain
  {
    w.chain[h].Some? ==>
      && (w.chain[h].value, Output(w, w.chain[h].value, x)) in sent
      && forall p | p in sent :: p.0 != s
  }

  lemma VisitSees<S, H>(w: Wiring<S, H>, busy: set<H>, sent: set<(S, nat)>, st: State<S, H>, s: S, h: H, x: nat,
                        floating: bool)
    requires Sound(w) && Over(w, st) && s in w.hooks && h in w.chain && busy == st.busy && |st.seen| == |st.calls|
    requires st.raising != [] && st.raising[0] == s
    requires Carries(w, busy, sent) && (h !in busy ==> LeadsAway(w, sent, h, x, s))
    ensures var r := Visit(w, st, h, x, floating);
      && r.value[s] == st.value[s] && |r.seen| == |r.calls| && st.calls <= r.calls && st.seen <= r.seen
      && (h !in busy && w.notify[h].Some? ==> CalledSeeing(r, |st.calls|, h, x, st.value[s]))
  {
    VisitUnfolds(w, st, h, x, floating);
    if h !in st.busy {
      var held := Notify(w, st.(busy := st.busy + {h}), h, x);
      if w.chain[h].Some? {
        RaiseSends(w, busy, sent, held, w.chain[h].value, x, floating);
        RaiseSentElsewhere(w, busy, sent, held, Raise(w, held, w.chain[h].value, x, floating), s);
      }
      var r := Visit(w, st, h, x, floating);
      hide Raise, Visit, Carries, SentOnly, LeadsAway, Output;
      if w.notify[h].Some? {
        assert held.calls[|st.calls|] == Call(h, x) && held.seen[|st.seen|] == st.value[s];
        assert r.calls[|st.calls|] == Call(h, x) && r.seen[|st.seen|] == st.value[s];
      }
    }
  }

  lemma RaiseSentElsewhere<S, H>(w: Wiring<S, H>, busy: set<H>, sent: set<(S, nat)>, a: State<S, H>, r: State<S, H>,
                                 s: S)
    requires Over(w, a) && Over(w, r) && s in w.hooks && SentOnly(w, busy, sent, a, r)
    requires forall p | p in sent :: p.0 != s
    ensures r.value[s] == a.value[s] && a.calls <= r.calls && a.seen <= r.seen
    ensures |r.seen| - |a.seen| == |r.calls| - |a.calls|
  {
    hide CallSent;
    var p := (s, r.value[s]);
    assert p.0 == s;
  }

  lemma StillCalledSeeing<S, H>(a: State<S, H>, b: State<S, H>, m: nat, n: nat, h: H, x: nat, was: nat)
    requires m <= n && a.calls <= b.calls && a.seen <= b.seen
    ensures CalledSeeing(a, n, h, x, was) ==> CalledSeeing(b, m, h, x, was)
  {
    if CalledSeeing(a, n, h, x, was) {
      var i :| n <= i < |a.calls| && i < |a.seen| && a.calls[i] == Call(h, x) && a.seen[i] == was;
      assert b.calls[i] == Call(h, x) && b.seen[i] == was;
    }
  }

  lemma {:induction false} SweepSees<S, H>(w: Wiring<S, H>, st: State<S, H>, s: S, hooks: seq<H>, x: nat,
                                           floating: bool, start: State<S, H>)
    requires Sound(w) && Over(w, st) && s in w.hooks && Known(w, hooks) && |st.seen| == |st.calls|
    requires st.raising != [] && st.raising[0] == s && st.busy == start.busy
    requires forall h, path | h in hooks && h !in st.busy && w.chain[h].Some? ::
      !Chained(w, start, w.chain[h].value, path, s)
    ensures var r := Sweep(w, st, hooks, x, floating);
      && st.calls <= r.calls && st.seen <= r.seen
      && forall h | h in hooks && h !in st.busy && w.notify[h].Some? ::
           CalledSeeing(r, |st.calls|, h, x, st.value[s])
    decreases |hooks|
  {
    if hooks != [] {
      var h, next := hooks[0], Visit(w, st, hooks[0], x, floating);
      var sent: set<(S, nat)> := {};
      if h !in st.busy && w.chain[h].Some? {
        sent := ChainsCarry(w, start, w.chain[h].value, x);
        AwayFrom(w, start, w.chain[h].value, x, sent, s);
      }
      VisitSees(w, st.busy, sent, st, s, h, x, floating);
      SweepSees(w, next, s, hooks[1..], x, floating, start);
      var r := Sweep(w, st, hooks, x, floating);
      assert r == Sweep(w, next, hooks[1..], x, floating);
      hide Sweep, Visit, CalledSeeing, Chained, Carries, LeadsAway;
      forall h' | h' in hooks && h' !in st.busy && w.notify[h'].Some?
        ensures CalledSeeing(r, |st.calls|, h', x, st.value[s])
      {
        StillCalledSeeing(next, r, |st.calls|, |st.calls|, h', x, st.value[s]);
        StillCalledSeeing(r, r, |st.calls|, |next.calls|, h', x, st.value[s]);
      }
    }
  }

  lemma AwayFrom<S, H>(w: Wiring<S, H>, start: State<S, H>, u: S, x: nat, sent: set<(S, nat)>, s: S)
    requires Sound(w) && forall path :: !Chained(w, start, u, path, s)
    requires forall p | p in sent :: p.0 in w.hooks && exists path :: ChainBrings(w, start, u, x, path, p.0, p.1)
    ensures forall p | p in sent :: p.0 != s
  {
    forall p | p in sent
      ensures p.0 != s
    {
      var path :| ChainBrings(w, start, u, x, path, p.0, p.1);
    }
  }

  // The value is set after the callbacks: those of the signal raised are called while it still has its
  // old value, unless a chain leads back to it.
  lemma CallbacksSeeOldValue<S, H>(w: Wiring<S, H>, st: State<S, H>, s: S, v: nat, floating: bool, h: H)
    requires Sound(w) && Over(w, st) && s in w.hooks && |st.seen| == |st.calls| && !Blocked(w, st, s, Output(w, s, v))
    requires forall path :: path != [] ==> !Chained(w, st, s, path, s)
    requires h in w.hooks[s] && h !in st.busy && w.notify[h].Some?
    ensures CalledSeeing(Raise(w, st, s, v, floating), |st.calls|, h, Output(w, s, v), st.value[s])
  {
    var begun := Start(st, s, floating);
    forall h, path | h in w.hooks[s] && h !in st.busy && w.chain[h].Some?
      ensures !Chained(w, st, w.chain[h].value, path, s)
    {
      assert ([h] + path)[1..] == path;
      assert !Chained(w, st, s, [h] + path, s);
    }
    SweepSees(w, begun, s, w.hooks[s], Output(w, s, v), floating, st);
    RaiseUnfolds(w, st, s, v, floating);
    hide Raise, Sweep, Output, Chained;
  }

  // ---- Connecting ----

  ghost predicate Linked<S, H>(w: Wiring<S, H>, src: S, dst: S)
    requires src in w.hooks && Known(w, w.hooks[src])
  {
    exists i | 0 <= i < |w.hooks[src]| :: w.chain[w.hooks[src][i]] == Some(dst)
  }

  // A new hook goes to the front of the list.
  ghost function Connected<S, H>(w: Wiring<S, H>, src: S, h: H, dst: S): Wiring<S, H>
    requires src in w.hooks
  {
    w.(hooks := w.hooks[src := [h] + w.hooks[src]], chain := w.chain[h := Some(dst)], notify := w.notify[h := None])
  }

  lemma ConnectedIsSound<S, H>(w: Wiring<S, H>, src: S, h: H, dst: S)
    requires Sound(w) && src in w.hooks && dst in w.hooks && h !in w.chain
    ensures Sound(Connected(w, src, h, dst))
    ensures var w' := Connected(w, src, h, dst); Known(w', w'.hooks[src]) && Linked(w', src, dst)
  {
    var w' := Connected(w, src, h, dst);
    assert w'.chain[w'.hooks[src][0]] == Some(dst);
  }

  lemma {:induction false} PathsStay<S, H>(w: Wiring<S, H>, st: State<S, H>, src: S, h: H, dst: S,
                                           s: S, path: seq<H>, t: S, v: nat)
    requires Sound(w) && Over(w, st) && src in w.hooks && dst in w.hooks && h !in w.chain
    requires Path(w, st, s, path, t, v)
    ensures Sound(Connected(w, src, h, dst)) && Path(Connected(w, src, h, dst), st, s, path, t, v)
    decreases |path|
  {
    ConnectedIsSound(w, src, h, dst);
    if path != [] {
      PathsStay(w, st, src, h, dst, w.chain[path[0]].value, path[1..], t, v);
    }
  }

  // After connecting src to dst, raising src reaches all that raising dst reached.
  lemma ConnectedReaches<S, H>(w: Wiring<S, H>, st: State<S, H>, src: S, h: H, dst: S, path: seq<H>, t: S, v: nat,
                               floating: bool)
    requires Sound(w) && Over(w, st) && st.passed == {} && src in w.hooks && dst in w.hooks && h !in w.chain
    requires w.inverted == {} && t in w.hooks && Path(w, st, dst, path, t, v) && !Blocked(w, st, src, v)
    ensures var w' := Connected(w, src, h, dst);
      Sound(w') && Over(w', st) && Raise(w', st, src, v, floating).value[t] == v
  {
    PathsStay(w, st, src, h, dst, dst, path, t, v);
    var w' := Connected(w, src, h, dst);
    assert ([h] + path)[1..] == path;
    assert Path(w', st, src, [h] + path, t, v);
    RaiseReaches(w', st, src, v, floating, t);
  }
}

module Signals {
  import opened Basics
  import opened SignalGraph

  class Hook {
    var busy: nat
    const notify: Option<nat>
    const chain: Option<Signal>

    constructor (notify: Option<nat>, chain: Option<Signal>)
      ensures busy == 0 && this.notify == notify && this.chain == chain
    {
      busy := 0;
      this.notify, this.chain := notify, chain;
    }
  }

  // mii_signal_t; the list of hooks is a sequence, and the flags are fields of their own.
  class Signal {
    var value: nat
    var inverted: bool
    var filtered: bool
    var init: bool
    var floating: bool
    var hooks: seq<Hook>
  }

  // The signals and hooks there are, and the record of the callbacks.
  class Board {
    ghost var signals: set<Signal>
    ghost var hooks: set<Hook>
    ghost var passed: set<Signal>
    ghost var raising: seq<Signal>
    var calls: seq<Call<Hook>>
    var seen: seq<nat>

    ghost function Wired(): Wiring<Signal, Hook>
      reads this`signals, this`hooks, signals`hooks, signals`inverted, signals`filtered
    {
      Wiring(map s | s in signals :: s.hooks, map h | h in hooks :: h.chain, map h | h in hooks :: h.notify,
             (set s | s in signals && s.inverted), (set s | s in signals && s.filtered))
    }

    ghost function Busy(): set<Hook>
      reads this`hooks, hooks`busy
    {
      set h | h in hooks && h.busy != 0
    }

    ghost function Now(): (st: State<Signal, Hook>)
      reads this, signals`value, signals`init, signals`floating, hooks`busy
    {
      State(map s | s in signals :: s.value, (set s | s in signals && s.init), (set s | s in signals && s.floating),
            Busy(), calls, seen, raising, passed)
    }

    ghost predicate Valid()
      reads this`signals, this`hooks, signals`hooks, signals`inverted, signals`filtered, hooks`busy
    {
      Sound(Wired()) && AtMostOne() && NoHookTwice()
    }

    ghost predicate AtMostOne()
      reads this`hooks, hooks`busy
    {
      forall h | h in hooks :: h.busy <= 1
    }

    // A list of linked hooks passes each once.
    ghost predicate NoHookTwice()
      reads this`signals, signals`hooks
    {
      forall s | s in signals :: NoneTwice(s.hooks)
    }

    // So what is said of the calls of a raise holds of every board.
    lemma ListsAreDistinct()
      requires Valid()
      ensures Distinct(Wired())
    {
    }

    lemma AlwaysOver()
      ensures Over(Wired(), Now()) && Wired().chain.Keys == hooks && Now().busy == Busy() && Now().raising == raising
    {
    }

    lemma ReadSignal(sig: Signal, value: nat)
      requires sig in signals && Sound(Wired())
      ensures Over(Wired(), Now()) && sig in Wired().hooks && Wired().hooks[sig] == sig.hooks
      ensures Output(Wired(), sig, value) == if sig.inverted then (if value == 0 then 1 else 0) else value
      ensures Blocked(Wired(), Now(), sig, value) <==> (sig.value == value && sig.filtered && !sig.init)
      ensures Known(Wired(), sig.hooks)
    {
    }

    lemma ReadHook(hook: Hook)
      requires hook in hooks && Sound(Wired())
      ensures Over(Wired(), Now()) && (hook in Busy() <==> hook.busy != 0)
      ensures Wired().chain.Keys == hooks && Now().busy == Busy()
      ensures hook in Wired().chain && Wired().chain[hook] == hook.chain
      ensures hook in Wired().notify && Wired().notify[hook] == hook.notify
      ensures hook.chain.Some? ==> hook.chain.value in signals
    {
      assert Wired().chain[hook] == hook.chain;
    }

    // The assignments to one field of one object, and what they do to the whole.

    method SetFlags(sig: Signal, floating: bool)
      requires sig in signals
      modifies this`passed, this`raising, sig`init, sig`floating
      ensures Now() == Start(old(Now()), sig, floating) && Busy() == old(Busy()) && raising == [sig] + old(raising)
    {
      sig.init := false;
      sig.floating := floating;
      passed, raising := passed + {sig}, [sig] + raising;
      assert (set s | s in signals && s.init) == old((set s | s in signals && s.init)) - {sig};
    }

    method SetValue(sig: Signal, value: nat, ghost before: seq<Signal>)
      requires sig in signals
      modifies this`raising, sig`value
      ensures Now() == old(Now()).(value := old(Now()).value[sig := value], raising := before) && raising == before
    {
      sig.value := value;
      raising := before;
    }

    method MarkBusy(hook: Hook)
      requires hook in hooks && hook.busy == 0 && AtMostOne()
      modifies hook`busy
      ensures AtMostOne() && Busy() == old(Busy()) + {hook}
      ensures Now() == old(Now()).(busy := old(Now()).busy + {hook})
    {
      hook.busy := hook.busy + 1;
    }

    method UnmarkBusy(hook: Hook)
      requires hook in hooks && hook in Busy() && AtMostOne()
      modifies hook`busy
      ensures AtMostOne() && Busy() == old(Busy()) - {hook}
      ensures Now() == old(Now()).(busy := old(Now()).busy - {hook})
    {
      hook.busy := hook.busy - 1;
    }

    lemma PresentIsRead(sig: Signal)
      requires sig in signals && raising != [] && raising[0] == sig
      ensures Present(Now()) == sig.value
    {
    }

    method NotifyHook(sig: Signal, hook: Hook, output: nat)
      requires hook in hooks && Sound(Wired()) && sig in signals && raising != [] && raising[0] == sig
      modifies this`calls, this`seen
      ensures hook in Wired().notify && Now() == Notify(Wired(), old(Now()), hook, output)
    {
      ReadHook(hook);
      PresentIsRead(sig);
      hide Sound, Wired, Over, Busy, Present, Now;
      if hook.notify.Some? {
        Record(Call(hook, output), sig.value);
      }
    }

    method Record(call: Call<Hook>, value: nat)
      modifies this`calls, this`seen
      ensures Now() == old(Now()).(calls := old(Now()).calls + [call], seen := old(Now()).seen + [value])
    {
      calls, seen := calls + [call], seen + [value];
    }

    method RaiseSignalFloat(sig: Signal?, value: nat, floating: bool)
      requires Valid() && (sig != null ==> sig in signals)
      modifies this`calls, this`seen, this`passed, this`raising
      modifies signals`value, signals`init, signals`floating, hooks`busy
      ensures Valid() && Over(Wired(), old(Now())) && Busy() == old(Busy())
      ensures raising == old(raising)
      ensures Now() == if sig == null then old(Now()) else Raise(Wired(), old(Now()), sig, value, floating)
      decreases hooks - Busy(), 2, 0
    {
      hide Sound, Known, Over, Blocked, Output, Start, Notify, Raise, Sweep, Visit, Now, Wired, Busy, AtMostOne;
      AlwaysOver();
      if sig == null {
        return;
      }
      ghost var st, before := Now(), raising;
      ReadSignal(sig, value);
      var output := if sig.inverted then (if value == 0 then 1 else 0) else value;
      ReadSignal(sig, output);
      RaiseUnfolds(Wired(), st, sig, value, floating);
      if sig.value == output && sig.filtered && !sig.init {
        return;
      }
      SetFlags(sig, floating);
      SweepHooks(sig, output, floating);
      SetValue(sig, output, before);
    }

    // The while loop.
    method SweepHooks(sig: Signal, output: nat, floating: bool)
      requires Valid() && sig in signals && Known(Wired(), sig.hooks) && raising != [] && raising[0] == sig
      modifies this`calls, this`seen, this`passed, this`raising
      modifies signals`value, signals`init, signals`floating, hooks`busy
      ensures Valid() && Over(Wired(), old(Now())) && Busy() == old(Busy())
      ensures Now() == Sweep(Wired(), old(Now()), sig.hooks, output, floating) && raising == old(raising)
      decreases hooks - Busy(), 1, 0
    {
      hide Sound, Over, Blocked, Output, Visit, Now, Wired, Busy;
      AlwaysOver();
      var i := 0;
      while i < |sig.hooks|
        invariant i <= |sig.hooks| && Valid() && Busy() == old(Busy()) && Over(Wired(), Now())
        invariant raising == old(raising)
        invariant Sweep(Wired(), Now(), sig.hooks[i..], output, floating)
               == Sweep(Wired(), old(Now()), sig.hooks, output, floating)
      {
        assert sig.hooks[i..][0] == sig.hooks[i] && sig.hooks[i..][1..] == sig.hooks[i + 1..];
        FollowHook(sig, sig.hooks[i], output, floating);
        AlwaysOver();
        i := i + 1;
      }
    }

    // One turn of the loop.
    method FollowHook(sig: Signal, hook: Hook, output: nat, floating: bool)
      requires Valid() && hook in hooks && sig in signals && raising != [] && raising[0] == sig
      modifies this`calls, this`seen, this`passed, this`raising
      modifies signals`value, signals`init, signals`floating, hooks`busy
      ensures Valid() && Over(Wired(), old(Now())) && hook in Wired().chain && Busy() == old(Busy())
      ensures Now() == Visit(Wired(), old(Now()), hook, output, floating) && raising == old(raising)
      decreases hooks - Busy(), 0, 0
    {
      hide Sound, Known, Over, Blocked, Output, Start, Notify, Raise, Sweep, Visit, Now, Wired, Busy, AtMostOne;
      ghost var st := Now();
      ReadHook(hook);
      VisitUnfolds(Wired(), st, hook, output, floating);
      if hook.busy == 0 {
        MarkBusy(hook);
        NotifyHook(sig, hook, output);
        if hook.chain.Some? {
          RaiseSignalFloat(hook.chain.value, output, floating);
        }
        UnmarkBusy(hook);
      }
    }

    method RaiseSignal(sig: Signal, value: nat)
      requires Valid() && sig in signals
      modifies this`calls, this`seen, this`passed, this`raising
      modifies signals`value, signals`init, signals`floating, hooks`busy
      ensures Valid() && Over(Wired(), old(Now()))
      ensures Now() == Raise(Wired(), old(Now()), sig, value, old(sig.floating))
    {
      RaiseSignalFloat(sig, value, sig.floating);
    }

    // A connection from a signal to itself, or to or from nothing, is refused; a second one is dropped.
    method ConnectSignal(src: Signal?, dst: Signal?)
      requires Valid() && (src != null ==> src in signals) && (dst != null ==> dst in signals)
      modifies this`hooks, signals`hooks
      ensures Valid() && hooks >= old(hooks)
      ensures if src == null || dst == null || src == dst || Linked(old(Wired()), src, dst)
        then Wired() == old(Wired())
        else exists h | h in hooks :: fresh(h) && Wired() == Connected(old(Wired()), src, h, dst)
      ensures Now() == old(Now())
    {
      if src == null || dst == null || src == dst {
        return;
      }
      hide Sound, Known, Over, Output, Blocked, Wired, Now, Linked, Connected, AtMostOne, NoHookTwice;
      var there := AlreadyThere(src, dst);
      if there {
        return;
      }
      ghost var w := Wired();
      AlwaysOver();
      ReadSignal(src, 0);
      ReadSignal(dst, 0);
      var hook := AllocHook(src, dst);
      ConnectedIsSound(w, src, hook, dst);
    }

    // The loop over the list.
    method AlreadyThere(src: Signal, dst: Signal) returns (there: bool)
      requires Valid() && src in signals
      ensures src in Wired().hooks && Known(Wired(), Wired().hooks[src])
      ensures there <==> Linked(Wired(), src, dst)
    {
      ghost var w := Wired();
      ReadSignal(src, 0);
      hide Sound, Over, Output, Blocked, Wired, Now;
      var i := 0;
      while i < |src.hooks|
        invariant i <= |src.hooks|
        invariant forall j | 0 <= j < i :: w.chain[w.hooks[src][j]] != Some(dst)
      {
        ReadHook(src.hooks[i]);
        if src.hooks[i].chain == Some(dst) {
          return true;
        }
        i := i + 1;
      }
      there := false;
    }

    ghost method AddHook(hook: Hook)
      requires hook !in hooks && hook.busy == 0 && AtMostOne()
      modifies this`hooks
      ensures hooks == old(hooks) + {hook} && AtMostOne() && Now() == old(Now())
      ensures var w := old(Wired());
        Wired() == w.(chain := w.chain[hook := hook.chain], notify := w.notify[hook := hook.notify])
    {
      ghost var w := Wired();
      hooks := hooks + {hook};
      assert Busy() == old(Busy());
      assert Wired().chain == w.chain[hook := hook.chain];
      assert Wired().notify == w.notify[hook := hook.notify];
    }

    // _mii_alloc_signal_hook, and the assignment to chain that follows it.
    method AllocHook(src: Signal, dst: Signal) returns (hook: Hook)
      requires Valid() && src in signals
      modifies this`hooks, src`hooks
      ensures fresh(hook) && hooks == old(hooks) + {hook} && AtMostOne() && NoHookTwice()
      ensures Wired() == Connected(old(Wired()), src, hook, dst)
      ensures Now() == old(Now())
    {
      hide Sound, AtMostOne, Now, Busy;
      ghost var w := Wired();
      hook := new Hook(None, Some(dst));
      src.hooks := [hook] + src.hooks;
      assert Wired() == w.(hooks := w.hooks[src := [hook] + w.hooks[src]]);
      AddHook(hook);
    }
  }
}
