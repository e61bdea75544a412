# A fine-grained reactive runtime, modelled in Dafny

The runtime keeps a stack of **contexts** in an **Owner**. A **State** is a signal. It holds a value and a list of subscriber callbacks (its effects). A **Context** is one reactive scope. It holds two things:

- the signals read while it was on top of the stack, as an insertion-ordered set;
- the callbacks to run when it is disposed.

On top of these sit the protocol functions:

- `createSignal`: an accessor that tracks reads, and a setter that takes a value or an updater function;
- `trackDependencies`: push a fresh context, run a function, then subscribe that function to every signal it read;
- `onCleanup`;
- `cleanup`: dispose a context and every context stacked above it;
- `createEffect` and `derived`.

Layout:

- `Lists.dfy` (module `Lists`) holds the sequence operations the collections are specified with:
  - `Insert` and `InsertAll`, for a JavaScript `Set`;
  - `Without`, for `filter(e => e !== fn)`;
  - `ReplaceAt`;
  - `IndexOf`.
- `Reactive.dfy` (module `Reactive`) holds the classes `Owner`, `Context` and `State` and the helper `Track`. They are Dafny classes whose methods update their fields in place.
- `Signal.dfy` (module `Signal`) holds the protocol layer. The owner stack is an explicit `Owner` parameter rather than a module-level global.

How the model represents the source:

- **Callbacks are identities.** `Callback` is either `Fn(id)` for a caller's function or `Disposer(ctx)` for the closure `() => cleanup(ctx)`. "Running" a list of callbacks means returning it, in order, as a trace.
- **A tracked function's run is data.** `seq<Step>` lists what the function does while its context is on top: it reads a signal or registers a cleanup. `ReadsOf` and `CleanupsOf` extract the two kinds of step.
- **The setter's argument is a `SetArg`.** It is `Plain(v)` for a value, or `Update(f)` for a function of the previous value. This replaces the `typeof value === "function"` test.

## Model

| member | source | states |
|---|---|---|
| Reactive.Owner.constructor | src/reactive.ts:4-6 | A new owner's stack is empty. |
| Reactive.Owner.CurrentContext | src/reactive.ts:8-10 | Returns nothing exactly when the stack is empty. Otherwise it returns the last context pushed. |
| Reactive.Owner.AddContext | src/reactive.ts:12-14 | The new stack is the old one with the context appended. |
| Reactive.Owner.PopContext | src/reactive.ts:16-18 | On an empty stack: returns nothing and leaves the stack as it was. Otherwise: returns the top, and the old stack is the new one plus that top. |
| Reactive.PushPopRestores | src/reactive.ts:12-18 | Combined with the contracts of AddContext and PopContext, popping right after pushing `c` yields `c` and the stack as it was. The stack is LIFO. |
| Reactive.Owner.PushThenPop | src/reactive.ts:12-18 | `addContext(c)` followed at once by `popContext()` returns `c` and leaves the stack exactly as it was: the stack is last-in, first-out. |
| Reactive.Owner.GetContext | src/reactive.ts:20-22 | Returns the stack's contents. |
| Reactive.Track | src/reactive.ts:29-35 | With a context on the stack, the top context's owned set gains the signal, and nothing else changes. With an empty stack, nothing changes. |
| Reactive.Context.constructor | src/reactive.ts:41-44 | A new context owns nothing and has no dispose callbacks. |
| Reactive.Context.Own | src/reactive.ts:46-48 | `owned` becomes the set insertion of the signal: already present, nothing changes; new, it goes to the end. Dispose callbacks are untouched. The owned signals stay free of duplicates. |
| Reactive.Context.OwnMany | src/reactive.ts:50-54 | `owned` becomes the old set with every given signal inserted left to right. The loop invariant ties each prefix to `InsertAll`. The owned signals stay free of duplicates. |
| Reactive.Context.Dispose | src/reactive.ts:56-59 | Runs exactly the old dispose callbacks, in registration order. Afterwards both the callbacks and the owned set are empty, so the context is again valid. |
| Reactive.Context.RunDisposeEvents | src/reactive.ts:61-64 | The trace is the old dispose list, in order. The list is then empty. The owned set is untouched. |
| Reactive.Context.OnDispose | src/reactive.ts:66-68 | Appends the callback and returns its slot, which is the old length and holds the callback. |
| Reactive.Context.ReplaceDisposeEvent | src/reactive.ts:70-74 | The replace handle overwrites only its own slot, and only while the list is longer than the slot. Otherwise, e.g. after a disposal emptied the list, it changes nothing. |
| Reactive.Context.AddEffect | src/reactive.ts:77-79 | Every owned signal gets the callback appended to its effects, and its value is unchanged. Only owned signals may change. |
| Reactive.Context.RemoveEffect | src/reactive.ts:81-83 | Every owned signal has every copy of the callback filtered out of its effects, and its value is unchanged. Only owned signals may change. |
| Reactive.Context.GetOwned | src/reactive.ts:85-87 | Returns the owned signals in insertion order. |
| Reactive.State.constructor | src/reactive.ts:94-97 | A new signal holds the given value and has no subscribers. |
| Reactive.State.ReadValue | src/reactive.ts:99-101 | Returns the value without tracking. |
| Reactive.State.Read | src/reactive.ts:103-107 | Returns the value and leaves it unchanged. The stack is unchanged. If a context is on top, that context's owned set gains this signal and its dispose callbacks are untouched. |
| Reactive.State.WriteValue | src/reactive.ts:109-111 | Stores the value. Subscribers are untouched. |
| Reactive.State.Write | src/reactive.ts:113-117 | Stores the value, then runs every subscriber exactly once, in subscription order. |
| Reactive.State.Dispose | src/reactive.ts:119-121 | Drops every subscriber and keeps the value. |
| Reactive.State.AddEffect | src/reactive.ts:123-125 | Appends the subscriber and keeps the value. |
| Reactive.State.RemoveEffect | src/reactive.ts:127-129 | Filters out every copy of the subscriber and keeps the value. |
| Lists.Insert | src/reactive.ts:46-48 | After `Set.add`: the element is present; the elements are the old ones plus it; an element already present changes nothing; the old order is a prefix; no duplicates are introduced. |
| Lists.InsertAll | src/reactive.ts:50-54 | Adding several elements: the result's elements are the union; the old sequence is a prefix; no duplicates are introduced. |
| Lists.InsertAllSnoc | src/reactive.ts:50-54 | Adding one more element at the end of the list is one more `Insert`. |
| Lists.Without | src/reactive.ts:128 | `filter(effect => effect !== fn)`. Its own ensures states only that the result is no longer than the input. What it removes and keeps is proved in WithoutCounts, its order in WithoutAppend, and its round trip with an append in RemoveAfterAppend. |
| Lists.WithoutCounts | src/reactive.ts:127-129 | The filter removes every copy of the callback and keeps every copy of every other one, as a multiset and as a set. |
| Lists.WithoutAppend | src/reactive.ts:127-129 | The filter distributes over concatenation, so the surviving subscribers keep their order. |
| Lists.WithoutIdempotent | src/reactive.ts:127-129 | Removing a subscriber twice is removing it once. |
| Lists.WithoutAbsent | src/reactive.ts:127-129 | Removing a callback that is not subscribed changes nothing. |
| Lists.RemoveAfterAppend | src/reactive.ts:123-129 | `removeEffect` undoes `addEffect` for a callback that was not subscribed before. |
| Lists.ReplaceAt | src/reactive.ts:70-74 | The length is kept. The slot holds the new callback when it exists. Every other slot is unchanged. |
| Lists.IndexOf | src/signal.ts:25 | `indexOf`: -1 exactly when the context is absent. Otherwise it is a position holding the context, with no earlier occurrence. |
| Signal.CreateSignal | src/signal.ts:33-34 | A fresh signal holding the value, with no subscribers. |
| Signal.NextValue | src/signal.ts:40 | The value the setter stores. A plain value is stored whatever the current value is. An updater is applied to the current value. |
| Signal.Set | src/signal.ts:38-41 | The setter stores the plain value, or the updater applied to the untracked current value. It then runs the unchanged subscribers in order. |
| Signal.SetterScenario | tests/signals.test.ts:12-24 | A signal made with 2 reads 2. After setting 4 it reads 4. After setting "previous plus one" it reads 5. |
| Signal.OnCleanup | src/signal.ts:16-22 | With a context on the stack, the top context's dispose list gains the callback at its end, and its owned set and the stack are unchanged. With an empty stack, nothing changes. |
| Signal.Cut | src/signal.ts:24-29 | The stack splits into what stays and what `splice(index)` removes. The two parts concatenate back to the stack. The kept part does not contain the context. Something is removed exactly when the context is on the stack, and then the removed part starts with it. |
| Signal.CutAgain | src/signal.ts:24-29 | Cleaning up the same context a second time removes nothing. |
| Signal.DisposalTrace | src/signal.ts:30 | The callbacks run by `toClean.forEach((context) => context.dispose())`. Every callback in the trace comes from the dispose list of one of the removed contexts. Nothing runs when no context is removed. The lowest removed context's callbacks run first, in registration order. A context met again has already been emptied and runs nothing. |
| Signal.DisposalTraceOfDistinct | src/signal.ts:30 | Disposing distinct contexts bottom to top runs each one's callbacks once, in registration order, context after context. |
| Signal.DisposalTraceOfTwo | src/signal.ts:30 | With two distinct contexts, the lower one's callbacks run before the upper one's. |
| Signal.DisposeAll | src/signal.ts:30 | The trace is the disposal of the removed contexts in stack order. Every removed context ends with nothing owned and no callbacks. |
| Signal.Cleanup | src/signal.ts:24-31 | The stack becomes the part below the first occurrence of the context. The trace is the disposal, bottom to top, of that context and everything above it. Every removed context is emptied. Contexts that stay are unchanged. A context not on the stack changes nothing and runs nothing. |
| Signal.CleanupScenario | src/signal.ts:24-31 | With two scopes stacked, each having registered one cleanup, cleaning up the lower one runs both cleanups, lower first, and leaves the stack empty. |
| Signal.StepEffect | src/signal.ts:9 | One step of a tracked function: a read inserts its signal into the owned set; a registered cleanup is appended to the dispose list. |
| Signal.RunStep | src/signal.ts:9 | Performs one step with the context on top, extending the owned set and the dispose list as StepEffect says. |
| Signal.RunSteps | src/signal.ts:9 | Running the tracked function with its context on top makes the context own the signals read, in first-read order without repeats. The context's dispose list gains the registered cleanups in order. |
| Signal.ReadOfStep | src/signal.ts:9 | Each read step's signal is among the signals the run read. |
| Signal.OwnsReads | src/signal.ts:9-11 | The context owns exactly the signals the run read, including each read step's signal. |
| Signal.OpenScope | src/signal.ts:5-9 | A fresh context is pushed and left on the stack. After the run it owns the signals read, with no duplicates, and holds the registered cleanups. |
| Signal.Subscribe | src/signal.ts:11 | The function is appended once to the effects of each signal it read, even one read several times. No value changes. |
| Signal.TrackDependencies | src/signal.ts:4-14 | Pushes a fresh context and leaves it on the stack. The context owns exactly the signals read and holds the cleanups registered. The function is subscribed once to each signal read. The returned disposer cleans up exactly this context. |
| Signal.ReadTwiceReads | src/signal.ts:9 | A function that reads one signal twice has two read steps. |
| Signal.InsertTwiceOnce | src/reactive.ts:46-54 | Owning a signal twice owns it once. |
| Signal.TrackingScenario | src/signal.ts:4-14 | A function that reads one signal twice is subscribed to it once, and its context owns it once. |
| Signal.CreateEffect | src/signal.ts:55-59 | The effect's disposer goes on the effect's own new context, which stays on top, after its cleanups. The callback is subscribed once to each signal read. Contexts below are untouched. |
| Signal.Derived | src/signal.ts:45-53 | The accessor's signal is fresh. Its value is the tracked computation's result and it has no subscribers. The updater is subscribed once to each signal the computation read. The disposer goes on the derived computation's own new context. Contexts below are untouched. |

## Left out

- `Owner.lock`/`unlock`, `trackScope`, `createEffectOn`, `getSignalInternals` and `globalState.reading` appear only in the tests, the `dist/` typings or documentation. They are not in `src/reactive.ts` or `src/signal.ts`, so they are not part of this model.
- `src/types.ts` and the `dist/` build output are not part of this model.
- `console.log` output is not modelled.
- Callbacks do not execute. Subscribers and dispose callbacks are returned, in order, as traces. The model does not capture the effects a callback would have when it runs, including re-entry: a subscriber reading or writing signals, or a `Disposer` in a trace calling `cleanup`.
- A tracked function is a sequence of reads and `onCleanup` calls. Writes, nested tracking and other actions inside a tracked function are not modelled. The one exception is `derived`'s own `setResult`, which `Derived` performs between tracking and subscribing.
- Signal values are `null`, booleans, integers or strings. Floating point and function-typed values are not modelled. The setter's `typeof value === "function"` test becomes the choice between `Plain` and `Update`.
- Reactive.Owner.GetContext: returns the stack's contents, not the aliased array the source hands out. Mutations through that alias are not modelled.
- Reactive.Context.OnDispose: the returned replace closure is modelled as the slot number plus `ReplaceDisposeEvent`, not as a function value.
- Signal.TrackDependencies, Signal.CreateEffect and Signal.Derived: the tracked function may only read signals and call `onCleanup`. It may not open a scope of its own, for example a nested `createEffect`, `derived` or `trackDependencies`. Their contracts, including "the function is subscribed to exactly the signals it read", hold only for such runs. In the source, nothing ever pops a context. So once a tracked function opens a nested scope, that scope stays on top: the function's later reads are tracked by the nested context, not its own, and the function is not subscribed to those signals. The disposer that `createEffect` or `derived` registers next also lands on the last context left on the stack. `derived` in tests/signals.test.ts:82-91 is such a case: its callback creates an effect before reading `value1` and `value2`.
- Signal.CreateEffect and Signal.Derived: the context they create is returned as a ghost value, since the source does not return it. The accessor closure of `derived` is the `State` it reads.

## Notes on the source

- `src/signal.ts` imports `contexts` from `./reactive`, and calls `addDependency` on a `Context`. `src/reactive.ts` exports neither. The model reads `contexts` as the stack of the global `Owner`: one stack shared by `State.read` and the protocol functions, as `dist/signal.js` has with its single module-level `contexts` array. It reads `addDependency(fn)` as `Context.addEffect(fn)`: subscribe `fn` to every owned signal.
- `trackDependencies` never pops the context it pushes (`src/signal.ts:4-14`). So the `onCleanup` that `createEffect` and `derived` make right afterwards registers the disposer on their own new context, not on the enclosing scope. This holds when the tracked function leaves no scope of its own on the stack. Otherwise the disposer goes on the last context the function left there. `CreateEffect` and `Derived` state this as written: the enclosing contexts are unchanged. A later cleanup of an enclosing scope still disposes these contexts, because they sit above it on the stack.
- `Context.dispose` (`src/reactive.ts:56-59`) runs the dispose callbacks and forgets the owned signals. It never calls `removeEffect`, so a disposed effect stays subscribed to the signals it read. `Cleanup`'s contract leaves every signal's subscribers untouched.
