/** The runtime's data structures: the Owner's stack of contexts, a Context
    (owned signals and dispose callbacks) and a State (a signal's value and
    its subscribers). Callbacks are identities; running them is modelled as
    handing them back, in order, in a returned trace. */
module Reactive {
  import opened Lists

  datatype Option<T> = None | Some(value: T)

  /** The JavaScript values a signal holds (numbers as integers). */
  datatype Value = Null | Bool(b: bool) | Num(n: int) | Str(s: string)

  /** A `() => void` closure, compared by identity: a caller's function with
      an id, or the disposer `() => cleanup(scope)` returned for a context. */
  datatype Callback = Fn(id: nat) | Disposer(scope: Context)

  /** The stack of active contexts; the last element is the top. */
  class Owner {
    var contexts: seq<Context>

    constructor ()
      ensures contexts == []
    {
      contexts := [];
    }

    /** The context a read or an `onCleanup` acts on, as a frame. */
    function TopFrame(): set<Context>
      reads this
    {
      if contexts == [] then {} else {contexts[|contexts| - 1]}
    }

    /** The most recently added context still on the stack, if any. */
    method CurrentContext() returns (c: Option<Context>)
      ensures c.None? <==> contexts == []
      ensures c.Some? ==> c.value == contexts[|contexts| - 1] && TopFrame() == {c.value}
    {
      if |contexts| == 0 {
        c := None;
      } else {
        c := Some(contexts[|contexts| - 1]);
      }
    }

    method AddContext(c: Context)
      modifies this
      ensures contexts == old(contexts) + [c]
    {
      contexts := contexts + [c];
    }

    /** Removes and returns the top context; on an empty stack returns
        nothing and changes nothing. */
    method PopContext() returns (c: Option<Context>)
      modifies this
      ensures c.None? <==> old(contexts) == []
      ensures c.None? ==> contexts == old(contexts)
      ensures c.Some? ==> old(contexts) == contexts + [c.value]
    {
      if |contexts| == 0 {
        c := None;
      } else {
        c := Some(contexts[|contexts| - 1]);
        contexts := contexts[..|contexts| - 1];
      }
    }

    /** Pushing `c` and popping at once gives `c` back and leaves the
        stack as it was: the stack is last-in, first-out. */
    method PushThenPop(c: Context) returns (p: Option<Context>)
      modifies this
      ensures p == Some(c) && contexts == old(contexts)
    {
      AddContext(c);
      p := PopContext();
      PushPopRestores(old(contexts), c, contexts, p.value);
    }

    method GetContext() returns (s: seq<Context>)
      ensures s == contexts
    {
      s := contexts;
    }
  }

  /** Popping right after pushing `c` yields `c` and the stack as it was:
      the contracts of AddContext and PopContext make the stack LIFO. */
  lemma PushPopRestores<T>(before: seq<T>, c: T, after: seq<T>, popped: T)
    requires after + [popped] == before + [c]
    ensures popped == c && after == before
  {
    assert |after| == |before|;
    assert popped == (after + [popped])[|after|] == (before + [c])[|before|];
    assert after == (after + [popped])[..|after|] == (before + [c])[..|before|];
  }

  /** One reactive scope: the signals read while it was on top, in first-read
      order without repeats, and the callbacks to run when it is disposed. */
  class Context {
    var owned: seq<State>
    var disposeEvents: seq<Callback>

    /** `owned` is a set. */
    ghost predicate Valid()
      reads this
    {
      Distinct(owned)
    }

    constructor ()
      ensures Valid() && owned == [] && disposeEvents == []
    {
      owned := [];
      disposeEvents := [];
    }

    method Own(s: State)
      modifies this
      ensures owned == Insert(old(owned), s)
      ensures disposeEvents == old(disposeEvents)
      ensures old(Valid()) ==> Valid()
    {
      if s !in owned {
        owned := owned + [s];
      }
    }

    method OwnMany(states: seq<State>)
      modifies this
      ensures owned == InsertAll(old(owned), states)
      ensures disposeEvents == old(disposeEvents)
      ensures old(Valid()) ==> Valid()
    {
      for i := 0 to |states|
        invariant owned == InsertAll(old(owned), states[..i])
        invariant disposeEvents == old(disposeEvents)
      {
        assert states[..i + 1][..i] == states[..i];
        Own(states[i]);
      }
      assert states[..|states|] == states;
    }

    /** Runs the dispose callbacks, then forgets the owned signals. */
    method Dispose() returns (trace: seq<Callback>)
      modifies this
      ensures trace == old(disposeEvents)
      ensures disposeEvents == [] && owned == []
      ensures Valid()
    {
      trace := RunDisposeEvents();
      owned := [];
    }

    /** Runs every dispose callback once, in registration order, then
        empties the list. */
    method RunDisposeEvents() returns (trace: seq<Callback>)
      modifies this
      ensures trace == old(disposeEvents)
      ensures disposeEvents == [] && owned == old(owned)
      ensures old(Valid()) ==> Valid()
    {
      trace := [];
      for i := 0 to |disposeEvents|
        invariant trace == disposeEvents[..i]
      {
        trace := trace + [disposeEvents[i]];
      }
      disposeEvents := [];
    }

    /** Appends `fn` and returns its slot; `ReplaceDisposeEvent(slot, _)` is
        the replace handle of the source. */
    method OnDispose(fn: Callback) returns (slot: nat)
      modifies this
      ensures disposeEvents == old(disposeEvents) + [fn]
      ensures slot == |old(disposeEvents)| && disposeEvents[slot] == fn
      ensures owned == old(owned)
      ensures old(Valid()) ==> Valid()
    {
      disposeEvents := disposeEvents + [fn];
      slot := |disposeEvents| - 1;
    }

    /** The replace handle: overwrites `slot` only while the list is longer
        than `slot` (so not after a disposal emptied it). */
    method ReplaceDisposeEvent(slot: nat, newFn: Callback)
      modifies this
      ensures disposeEvents == ReplaceAt(old(disposeEvents), slot, newFn)
      ensures owned == old(owned)
      ensures old(Valid()) ==> Valid()
    {
      if |disposeEvents| > slot {
        disposeEvents := disposeEvents[slot := newFn];
      }
    }

    /** Subscribes `fn` to every owned signal, and to no other. */
    method AddEffect(fn: Callback)
      requires Valid()
      modifies Elems(owned)
      ensures forall s :: s in owned ==> s.effects == old(s.effects) + [fn] && s.value == old(s.value)
    {
      for i := 0 to |owned|
        invariant forall k :: 0 <= k < i ==> owned[k].effects == old(owned[k].effects) + [fn]
        invariant forall k :: i <= k < |owned| ==> owned[k].effects == old(owned[k].effects)
        invariant forall k :: 0 <= k < |owned| ==> owned[k].value == old(owned[k].value)
      {
        owned[i].AddEffect(fn);
      }
    }

    /** Unsubscribes `fn` from every owned signal, and from no other. */
    method RemoveEffect(fn: Callback)
      requires Valid()
      modifies Elems(owned)
      ensures forall s :: s in owned ==> s.effects == Without(old(s.effects), fn) && s.value == old(s.value)
    {
      for i := 0 to |owned|
        invariant forall k :: 0 <= k < i ==> owned[k].effects == Without(old(owned[k].effects), fn)
        invariant forall k :: i <= k < |owned| ==> owned[k].effects == old(owned[k].effects)
        invariant forall k :: 0 <= k < |owned| ==> owned[k].value == old(owned[k].value)
      {
        owned[i].RemoveEffect(fn);
      }
    }

    method GetOwned() returns (s: seq<State>)
      ensures s == owned
    {
      s := owned;
    }
  }

  /** One signal: its value and its subscribers in subscription order. */
  class State {
    var value: Value
    var effects: seq<Callback>

    constructor (v: Value)
      ensures value == v && effects == []
    {
      value := v;
      effects := [];
    }

    /** The value, without tracking. */
    method ReadValue() returns (v: Value)
      ensures v == value
    {
      v := value;
    }

    /** Registers this signal with the current context, if any, and returns
        the value; the value itself never changes. */
    method Read(owner: Owner) returns (v: Value)
      modifies owner.TopFrame()
      ensures v == value && value == old(value)
      ensures owner.contexts == old(owner.contexts)
      ensures old(owner.contexts) != [] ==>
        var top := owner.contexts[|owner.contexts| - 1];
        top.owned == Insert(old(top.owned), this) && top.disposeEvents == old(top.disposeEvents)
    {
      Track(owner, this);
      v := ReadValue();
    }

    /** Stores the value, without notifying. */
    method WriteValue(v: Value)
      modifies this
      ensures value == v && effects == old(effects)
    {
      value := v;
    }

    /** Stores the value, then runs every subscriber once, in order. */
    method Write(v: Value) returns (trace: seq<Callback>)
      modifies this
      ensures value == v && effects == old(effects)
      ensures trace == effects
    {
      WriteValue(v);
      trace := [];
      for i := 0 to |effects|
        invariant trace == effects[..i]
      {
        trace := trace + [effects[i]];
      }
    }

    method Dispose()
      modifies this
      ensures effects == [] && value == old(value)
    {
      effects := [];
    }

    method AddEffect(fn: Callback)
      modifies this
      ensures effects == old(effects) + [fn] && value == old(value)
    {
      effects := effects + [fn];
    }

    method RemoveEffect(fn: Callback)
      modifies this
      ensures effects == Without(old(effects), fn) && value == old(value)
    {
      effects := Without(effects, fn);
    }
  }

  /** Makes the current context, if there is one, own `s`. */
  method Track(owner: Owner, s: State)
    modifies owner.TopFrame()
    ensures old(owner.contexts) != [] ==>
      var top := owner.contexts[|owner.contexts| - 1];
      top.owned == Insert(old(top.owned), s) && top.disposeEvents == old(top.disposeEvents)
  {
    var current := owner.CurrentContext();
    if current.None? {
      return;
    }
    current.value.Own(s);
  }
}
