/** The protocol layer: signals with a value-or-updater setter, tracked
    functions that subscribe to what they read, cleanup registration, and the
    disposal of a context together with every context stacked above it. The
    stack is the runtime's Owner, passed explicitly. */
module Signal {
  import opened Lists
  import opened Reactive

  /** What the setter is called with: a value to store, or a function of the
      current value. */
  datatype SetArg = Plain(v: Value) | Update(f: Value -> Value)

  /** The value the setter stores: a plain value whatever the current one
      is, or the updater's answer for the current one. */
  function NextValue(current: Value, arg: SetArg): (r: Value)
    ensures arg.Plain? ==> r == arg.v
    ensures arg.Update? ==> r == arg.f(current)
  {
    match arg
    case Plain(v) => v
    case Update(f) => f(current)
  }

  /** The signal behind the accessor and setter pair of `createSignal`. */
  method CreateSignal(v: Value) returns (s: State)
    ensures fresh(s) && s.value == v && s.effects == []
  {
    s := new State(v);
  }

  /** The setter: stores `arg` or `arg` applied to the current value, read
      without tracking, then runs the subscribers in order. */
  method Set(s: State, arg: SetArg) returns (trace: seq<Callback>)
    modifies s
    ensures s.value == NextValue(old(s.value), arg)
    ensures s.effects == old(s.effects) && trace == s.effects
  {
    trace := s.Write(NextValue(s.value, arg));
  }

  /** A signal made with 2 and set to 4 reads 4; set with "previous plus
      one" it reads 5. */
  method SetterScenario() returns (first: Value, second: Value, third: Value)
    ensures first == Num(2) && second == Num(4) && third == Num(5)
  {
    var owner := new Owner();
    var s := CreateSignal(Num(2));
    first := s.Read(owner);
    var fired := Set(s, Plain(Num(4)));
    second := s.Read(owner);
    fired := Set(s, Update((v: Value) => if v.Num? then Num(v.n + 1) else v));
    third := s.Read(owner);
  }

  /** Registers `fn` on the top context; outside any context does nothing. */
  method OnCleanup(owner: Owner, fn: Callback)
    modifies owner.TopFrame()
    ensures owner.contexts == old(owner.contexts)
    ensures old(owner.contexts) != [] ==>
      var top := owner.contexts[|owner.contexts| - 1];
      top.disposeEvents == old(top.disposeEvents) + [fn] && top.owned == old(top.owned)
  {
    if |owner.contexts| == 0 {
      return;
    }
    var current := owner.contexts[|owner.contexts| - 1];
    var slot := current.OnDispose(fn);
  }

  /** The stack split at the first occurrence of `c`: what stays, and what is
      removed (`c` and everything above it). */
  function Cut<T(==)>(stack: seq<T>, c: T): (r: (seq<T>, seq<T>))
    ensures r.0 + r.1 == stack
    ensures c !in r.0
    ensures c in stack <==> r.1 != []
    ensures r.1 != [] ==> r.1[0] == c
  {
    var index := IndexOf(stack, c);
    if index == -1 then (stack, []) else (stack[..index], stack[index..])
  }

  /** Cutting again at the same context removes nothing. */
  lemma CutAgain<T>(stack: seq<T>, c: T)
    ensures Cut(Cut(stack, c).0, c) == (Cut(stack, c).0, [])
  {
  }

  /** The callbacks run by disposing `cs` from first to last, where
      `events` gives each context's dispose list; a context met again has
      already been emptied. */
  function DisposalTrace<K(==), V>(cs: seq<K>, events: map<K, seq<V>>): (r: seq<V>)
    requires Elems(cs) <= events.Keys
    ensures forall v :: v in r ==> exists c :: c in cs && v in events[c]
    ensures cs == [] ==> r == []
    ensures |cs| > 0 ==> |events[cs[0]]| <= |r| && r[..|events[cs[0]]|] == events[cs[0]]
  {
    if cs == [] then []
    else
      assert Elems(cs[1..]) <= Elems(cs);
      events[cs[0]] + DisposalTrace(cs[1..], events[cs[0] := []])
  }

  /** The dispose lists of `cs` one after the other. */
  function Concat<K(==), V>(cs: seq<K>, events: map<K, seq<V>>): seq<V>
    requires Elems(cs) <= events.Keys
  {
    if cs == [] then []
    else
      assert Elems(cs[1..]) <= Elems(cs);
      events[cs[0]] + Concat(cs[1..], events)
  }

  lemma {:induction false} ConcatUnaffected<K, V>(cs: seq<K>, events: map<K, seq<V>>, k: K, v: seq<V>)
    requires Elems(cs) <= events.Keys && k !in cs
    ensures Concat(cs, events[k := v]) == Concat(cs, events)
  {
    if cs != [] {
      assert Elems(cs[1..]) <= Elems(cs);
      ConcatUnaffected(cs[1..], events, k, v);
    }
  }

  /** Disposing distinct contexts bottom-to-top runs each one's callbacks
      once, in registration order, context after context. */
  lemma {:induction false} DisposalTraceOfDistinct<K, V>(cs: seq<K>, events: map<K, seq<V>>)
    requires Elems(cs) <= events.Keys && Distinct(cs)
    ensures DisposalTrace(cs, events) == Concat(cs, events)
  {
    if cs != [] {
      assert Elems(cs[1..]) <= Elems(cs);
      assert cs[0] !in cs[1..];
      DisposalTraceOfDistinct(cs[1..], events[cs[0] := []]);
      ConcatUnaffected(cs[1..], events, cs[0], []);
    }
  }

  /** Each context's dispose list. */
  ghost function EventsOf(cs: seq<Context>): (m: map<Context, seq<Callback>>)
    reads set c | c in cs
    ensures m.Keys == Elems(cs)
  {
    map c | c in cs :: c.disposeEvents
  }

  lemma DisposalTraceStep<K, V>(cs: seq<K>, k: nat, events: map<K, seq<V>>)
    requires k < |cs| && Elems(cs) <= events.Keys
    ensures Elems(cs[k..]) <= events.Keys && Elems(cs[k + 1..]) <= events.Keys
    ensures DisposalTrace(cs[k..], events) == events[cs[k]] + DisposalTrace(cs[k + 1..], events[cs[k] := []])
  {
    assert cs[k..][1..] == cs[k + 1..];
  }

  /** Disposes `cs` from first to last. */
  method DisposeAll(cs: seq<Context>) returns (trace: seq<Callback>)
    modifies Elems(cs)
    ensures trace == DisposalTrace(cs, old(EventsOf(cs)))
    ensures forall x :: x in cs ==> x.owned == [] && x.disposeEvents == []
  {
    ghost var events := EventsOf(cs);
    trace := [];
    for k := 0 to |cs|
      invariant events.Keys == Elems(cs)
      invariant forall j :: 0 <= j < |cs| ==> cs[j].disposeEvents == events[cs[j]]
      invariant trace + DisposalTrace(cs[k..], events) == DisposalTrace(cs, old(EventsOf(cs)))
      invariant forall j :: 0 <= j < k ==> cs[j].owned == [] && cs[j].disposeEvents == []
    {
      DisposalTraceStep(cs, k, events);
      var disposed := cs[k].Dispose();
      events := events[cs[k] := []];
      trace := trace + disposed;
    }
  }

  /** `cleanup(c)`: when `c` is on the stack, cut the stack below its first
      occurrence and dispose the removed contexts bottom-to-top; otherwise
      do nothing. */
  method Cleanup(owner: Owner, c: Context) returns (trace: seq<Callback>)
    modifies owner, Elems(owner.contexts)
    ensures owner.contexts == Cut(old(owner.contexts), c).0
    ensures trace == DisposalTrace(Cut(old(owner.contexts), c).1, old(EventsOf(Cut(owner.contexts, c).1)))
    ensures forall x :: x in Cut(old(owner.contexts), c).1 ==> x.owned == [] && x.disposeEvents == []
    ensures forall x :: x in old(owner.contexts) && x !in Cut(old(owner.contexts), c).1 ==> unchanged(x)
  {
    var index := IndexOf(owner.contexts, c);
    if index == -1 {
      return [];
    }
    var toClean := owner.contexts[index..];
    owner.contexts := owner.contexts[..index];
    trace := DisposeAll(toClean);
  }

  /** What a tracked function does while its context is on top: read a
      signal, or register a cleanup. */
  datatype Step = ReadSignal(signal: State) | RegisterCleanup(fn: Callback)

  /** The signals read by `run`, in order, with repeats. */
  function ReadsOf(run: seq<Step>): seq<State> {
    if run == [] then []
    else ReadsOf(run[..|run| - 1]) + (if run[|run| - 1].ReadSignal? then [run[|run| - 1].signal] else [])
  }

  /** The cleanups registered by `run`, in order. */
  function CleanupsOf(run: seq<Step>): seq<Callback> {
    if run == [] then []
    else CleanupsOf(run[..|run| - 1]) + (if run[|run| - 1].RegisterCleanup? then [run[|run| - 1].fn] else [])
  }

  /** What one more step adds to the owned signals and the dispose list. */
  lemma StepEffect(owned: seq<State>, events: seq<Callback>, run: seq<Step>, i: nat)
    requires i < |run|
    ensures run[i].ReadSignal? ==>
      InsertAll(owned, ReadsOf(run[..i + 1])) == Insert(InsertAll(owned, ReadsOf(run[..i])), run[i].signal) &&
      events + CleanupsOf(run[..i + 1]) == events + CleanupsOf(run[..i])
    ensures run[i].RegisterCleanup? ==>
      InsertAll(owned, ReadsOf(run[..i + 1])) == InsertAll(owned, ReadsOf(run[..i])) &&
      events + CleanupsOf(run[..i + 1]) == events + CleanupsOf(run[..i]) + [run[i].fn]
  {
    assert run[..i + 1][..i] == run[..i];
    assert ReadsOf(run[..i]) + [] == ReadsOf(run[..i]);
    assert CleanupsOf(run[..i]) + [] == CleanupsOf(run[..i]);
    if run[i].ReadSignal? {
      InsertAllSnoc(owned, ReadsOf(run[..i]), run[i].signal);
    }
  }

  /** Performs step `i` of `run` while `ctx` is on top, given that `ctx`
      started from `owned` and `events` and has seen the steps before `i`. */
  method RunStep(owner: Owner, ctx: Context, run: seq<Step>, i: nat, ghost owned: seq<State>, ghost events: seq<Callback>)
    requires i < |run|
    requires owner.contexts != [] && owner.contexts[|owner.contexts| - 1] == ctx
    requires ctx.owned == InsertAll(owned, ReadsOf(run[..i]))
    requires ctx.disposeEvents == events + CleanupsOf(run[..i])
    modifies ctx
    ensures ctx.owned == InsertAll(owned, ReadsOf(run[..i + 1]))
    ensures ctx.disposeEvents == events + CleanupsOf(run[..i + 1])
  {
    StepEffect(owned, events, run, i);
    match run[i]
    case ReadSignal(s) =>
      var v := s.Read(owner);
    case RegisterCleanup(fn) =>
      OnCleanup(owner, fn);
  }

  /** Performs `run` while `ctx` is on top: each read makes `ctx` own the
      signal, each `onCleanup` appends to `ctx`'s dispose list. */
  method RunSteps(owner: Owner, ctx: Context, run: seq<Step>)
    requires owner.contexts != [] && owner.contexts[|owner.contexts| - 1] == ctx
    modifies ctx
    ensures ctx.owned == InsertAll(old(ctx.owned), ReadsOf(run))
    ensures ctx.disposeEvents == old(ctx.disposeEvents) + CleanupsOf(run)
  {
    ghost var owned, events := ctx.owned, ctx.disposeEvents;
    for i := 0 to |run|
      invariant ctx.owned == InsertAll(owned, ReadsOf(run[..i]))
      invariant ctx.disposeEvents == events + CleanupsOf(run[..i])
    {
      RunStep(owner, ctx, run, i, owned, events);
    }
    assert run[..|run|] == run;
  }

  /** Owning what `run` read means owning exactly the read signals. */
  lemma OwnsReads(run: seq<Step>)
    ensures Elems(InsertAll([], ReadsOf(run))) == Elems(ReadsOf(run))
    ensures forall i :: 0 <= i < |run| && run[i].ReadSignal? ==> run[i].signal in InsertAll([], ReadsOf(run))
  {
    var owned := InsertAll([], ReadsOf(run));
    assert Elems<State>([]) == {};
    forall i | 0 <= i < |run| && run[i].ReadSignal?
      ensures run[i].signal in owned
    {
      ReadOfStep(run, i);
      assert run[i].signal in Elems(ReadsOf(run));
      assert run[i].signal in Elems(owned);
    }
  }

  lemma {:induction false} ReadOfStep(run: seq<Step>, i: nat)
    requires i < |run| && run[i].ReadSignal?
    ensures run[i].signal in ReadsOf(run)
  {
    if i < |run| - 1 {
      assert run[..|run| - 1][i] == run[i];
      ReadOfStep(run[..|run| - 1], i);
    }
  }

  /** The first half of `trackDependencies`: push a fresh context, leave it
      on the stack and run the tracked function with it on top. */
  method OpenScope(owner: Owner, run: seq<Step>) returns (ctx: Context)
    modifies owner
    ensures fresh(ctx) && owner.contexts == old(owner.contexts) + [ctx]
    ensures ctx.Valid() && ctx.owned == InsertAll([], ReadsOf(run))
    ensures Elems(ctx.owned) == Elems(ReadsOf(run))
    ensures ctx.disposeEvents == CleanupsOf(run)
  {
    ctx := new Context();
    owner.AddContext(ctx);
    RunSteps(owner, ctx, run);
    OwnsReads(run);
  }

  /** The second half of `trackDependencies`: `ctx.addEffect(fn)`, which
      subscribes `fn` once to each signal `run` read. */
  method Subscribe(ctx: Context, fn: Callback, run: seq<Step>)
    requires ctx.Valid() && ctx.owned == InsertAll([], ReadsOf(run))
    modifies Elems(ReadsOf(run))
    ensures forall i :: 0 <= i < |run| && run[i].ReadSignal? ==>
      run[i].signal.effects == old(run[i].signal.effects) + [fn] && run[i].signal.value == old(run[i].signal.value)
  {
    OwnsReads(run);
    ctx.AddEffect(fn);
  }

  /** `trackDependencies(fn)`: pushes a fresh context and leaves it on the
      stack, runs `fn`, subscribes `fn` to exactly the signals it read (once
      each), and returns the disposer `() => cleanup(ctx)`. */
  method TrackDependencies(owner: Owner, fn: Callback, run: seq<Step>) returns (ctx: Context, disposer: Callback)
    modifies owner, Elems(ReadsOf(run))
    ensures fresh(ctx) && disposer == Disposer(ctx)
    ensures owner.contexts == old(owner.contexts) + [ctx]
    ensures ctx.Valid() && ctx.owned == InsertAll([], ReadsOf(run))
    ensures ctx.disposeEvents == CleanupsOf(run)
    ensures forall i :: 0 <= i < |run| && run[i].ReadSignal? ==>
      run[i].signal.effects == old(run[i].signal.effects) + [fn] && run[i].signal.value == old(run[i].signal.value)
  {
    ctx := OpenScope(owner, run);
    Subscribe(ctx, fn, run);
    disposer := Disposer(ctx);
  }

  /** `createEffect(cb)`: tracks `cb`, then registers the disposer on the
      top context, which is the effect's own new context. */
  method CreateEffect(owner: Owner, cb: Callback, run: seq<Step>) returns (ghost ctx: Context)
    modifies owner, Elems(ReadsOf(run))
    ensures fresh(ctx) && owner.contexts == old(owner.contexts) + [ctx]
    ensures ctx.Valid() && ctx.owned == InsertAll([], ReadsOf(run))
    ensures ctx.disposeEvents == CleanupsOf(run) + [Disposer(ctx)]
    ensures forall i :: 0 <= i < |run| && run[i].ReadSignal? ==>
      run[i].signal.effects == old(run[i].signal.effects) + [cb] && run[i].signal.value == old(run[i].signal.value)
    ensures forall x :: x in old(owner.contexts) ==> unchanged(x)
  {
    var scope, cleanupEffect := TrackDependencies(owner, cb, run);
    OnCleanup(owner, cleanupEffect);
    ctx := scope;
  }

  /** `derived(cb)`: a signal made with null, then
      `trackDependencies(() => setResult(cb()))` with the write to the new
      signal between its two halves (`update` is that arrow, `run` and
      `result` are what `cb()` reads and returns), then the disposer
      registered on the top context. */
  method Derived(owner: Owner, update: Callback, run: seq<Step>, result: Value) returns (accessor: State, ghost ctx: Context)
    modifies owner, Elems(ReadsOf(run))
    ensures fresh(accessor) && accessor.value == result && accessor.effects == []
    ensures fresh(ctx) && owner.contexts == old(owner.contexts) + [ctx]
    ensures ctx.Valid() && ctx.owned == InsertAll([], ReadsOf(run))
    ensures ctx.disposeEvents == CleanupsOf(run) + [Disposer(ctx)]
    ensures forall i :: 0 <= i < |run| && run[i].ReadSignal? ==>
      run[i].signal.effects == old(run[i].signal.effects) + [update] && run[i].signal.value == old(run[i].signal.value)
    ensures forall x :: x in old(owner.contexts) ==> unchanged(x)
  {
    ghost var readSignals := Elems(ReadsOf(run));
    accessor := CreateSignal(Null);
    assert accessor !in readSignals;
    var scope := OpenScope(owner, run);
    var fired := Set(accessor, Plain(result));
    Subscribe(scope, update, run);
    OnCleanup(owner, Disposer(scope));
    ctx := scope;
  }

  /** Reading the same signal twice records it twice in the run... */
  lemma ReadTwiceReads(s: State)
    ensures ReadsOf([ReadSignal(s), ReadSignal(s)]) == [s, s]
  {
    var run := [ReadSignal(s), ReadSignal(s)];
    assert run[..1] == [ReadSignal(s)] && run[..1][..0] == [];
    assert ReadsOf(run[..1]) == ReadsOf([]) + [s];
  }

  /** ...and its context owns it once. */
  lemma InsertTwiceOnce<T>(x: T)
    ensures InsertAll([], [x, x]) == [x]
  {
    assert [x, x][..1] == [x] && [x][..0] == [];
    assert InsertAll([], [x]) == Insert([], x) == [x];
  }

  /** A function that reads one signal twice is subscribed to it once, and
      its context owns it once. */
  method TrackingScenario() returns (subscribers: seq<Callback>, owned: seq<State>)
    ensures subscribers == [Fn(0)] && |owned| == 1
  {
    var owner := new Owner();
    var s := CreateSignal(Num(2));
    ReadTwiceReads(s);
    InsertTwiceOnce(s);
    var ctx, disposer := TrackDependencies(owner, Fn(0), [ReadSignal(s), ReadSignal(s)]);
    subscribers := s.effects;
    owned := ctx.owned;
  }

  /** Disposing two distinct contexts runs the lower one's callbacks, then
      the upper one's. */
  lemma DisposalTraceOfTwo<K, V>(a: K, b: K, events: map<K, seq<V>>)
    requires a != b && a in events && b in events
    ensures DisposalTrace([a, b], events) == events[a] + events[b]
  {
    assert [a, b][1..] == [b] && [b][1..] == [];
    var rest := events[a := []];
    assert DisposalTrace([b], rest) == rest[b] + DisposalTrace([], rest[b := []]);
  }

  /** Two tracked functions, each registering a cleanup, leave two contexts
      on the stack; cleaning up the lower one disposes both, lower first,
      and empties the stack. */
  method CleanupScenario() returns (trace: seq<Callback>, left: nat)
    ensures trace == [Fn(1), Fn(3)] && left == 0
  {
    var owner := new Owner();
    var outer, inner := TwoScopes(owner);
    DisposalTraceOfTwo(outer, inner, EventsOf(owner.contexts));
    assert Cut(owner.contexts, outer) == ([], [outer, inner]);
    trace := Cleanup(owner, outer);
    left := |owner.contexts|;
  }

  /** Opens, on an empty stack, a scope registering cleanup `Fn(1)` and,
      above it, one registering `Fn(3)`. */
  method TwoScopes(owner: Owner) returns (outer: Context, inner: Context)
    requires owner.contexts == []
    modifies owner
    ensures fresh(outer) && fresh(inner)
    ensures owner.contexts == [outer, inner] && outer != inner
    ensures outer.disposeEvents == [Fn(1)] && inner.disposeEvents == [Fn(3)]
  {
    var outerRun := [RegisterCleanup(Fn(1))];
    var innerRun := [RegisterCleanup(Fn(3))];
    assert outerRun[..0] == [] && innerRun[..0] == [];
    outer := OpenScope(owner, outerRun);
    inner := OpenScope(owner, innerRun);
  }
}
