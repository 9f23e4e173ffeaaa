# Activation pipeline pieces of an inversion-of-control container

This project models, in Dafny, seven small pieces of the activation
pipeline of a .NET dependency-injection kernel, and proves what each
piece promises:

- **Instance tracker** (`Tracking.StandardTracker`): a dictionary from
  activated instances to the contexts they were activated in. `Track` adds
  an entry under the kernel's tracking mode; `Release` (by instance),
  `ReleaseContext` (by context), `ReleaseAll` and `Dispose` run the
  behaviour's release hook and drop entries. Release-hook calls are kept, in
  order, in the field `released`.
- **Constructor-argument resolution** (`Providers.Provider`, with its
  specification in `ArgumentResolution`): finds the plan's constructor
  directive and fills the argument array position by position. An inline
  argument named after the target wins, converted when its type does not
  fit. Any other argument gets a child context and its resolver's value.
  The injector is then called with the array. The runtime services
  (assignability, conversion, resolvers, injectors) are the fields of
  `ArgumentResolution.Runtime`. Every side-effecting call into them is
  returned as a trace of `Call`s.
- **Provider base state** (`Providers.Provider`): the prototype type, the
  null-prototype check, the compatibility test, and disposal.
- **Startable strategy** (`Strategies`): starts startable instances after
  initialisation and marks them for tracking. Stops them before
  destruction. Always lets the pipeline proceed.
- **Method directive key** (`Directives`): the method name followed by the
  full names of its parameter types, run together.
- **Simple interceptor** (`Interception`): before-hook, proceed, after-hook,
  as an event trace.
- **Weak instance reference** (`References`): a weak handle on an instance,
  with an explicit liveness flag for the collector, plus its context.

Shared vocabulary (types, values, targets, directives, plans, bindings,
errors, the context class) is in `Activation`. Option/Result/Outcome are in
`Wrappers`.

Modelling choices:

- A .NET exception becomes an `Error` in a `Result` or `Outcome`.
  `ArgumentNull("key")` is what the dictionary throws for a null key.
  `ArgumentNull("context")` and `ArgumentNull("prototype")` come from the
  argument checks. `NullReference` is `GetType()` called on a null inline
  value.
- The base class `DisposableObject` is not part of this model. Its
  `Dispose(bool)` is taken to set the disposed flag whether or not
  `disposing` is set.
- The `InstanceTrackingMode` enumeration is not part of this model. It is
  modelled as `Default | TrackEverything | TrackNothing`; any mode other
  than the two named ones defers to the behaviour, as the switch's
  `default` branch does.
- The .NET type API's `Type.IsAssignableFrom(null)` is false. So a disposed
  provider, whose prototype has been cleared, is compatible with nothing.
- `StringBuilder.Append` of a null string appends nothing. A parameter type
  without a full name (a generic parameter) therefore adds nothing to a
  method directive key.
- The key is a function of the method's name and its ordered parameter
  types, so equal inputs give equal keys by construction. Because nothing
  separates the parts, different methods can share a key
  (`Directives.KeyCollision`).
- `ReleaseAll` (src/Core/Tracking/StandardTracker.cs:128-135) has no
  handling for a release hook that throws: such a failure would end the
  sweep before the dictionary is cleared. The model's release hooks do not
  fail.

## Model

| member | source | states |
|---|---|---|
| `Tracking.StandardTracker.constructor` | src/Core/Tracking/StandardTracker.cs:35 | a new tracker has an empty dictionary, no release calls, and is not disposed |
| `Tracking.StandardTracker.ReferenceCount` | src/Core/Tracking/StandardTracker.cs:42-45 | the number of keys in the dictionary |
| `Tracking.StandardTracker.ShouldTrack` | src/Core/Tracking/StandardTracker.cs:150-163 | true under TrackEverything, false under TrackNothing, otherwise exactly the behaviour's ShouldTrackInstances |
| `Tracking.StandardTracker.Track` | src/Core/Tracking/StandardTracker.cs:68-80 | when not to be tracked, the map is unchanged. Otherwise `map[instance] := context` overwrites and touches no other key, and the count grows only for a new key. A null instance is refused |
| `Tracking.StandardTracker.DoRelease` | src/Core/Tracking/StandardTracker.cs:139-148 | the behaviour's release hook receives the context, once |
| `Tracking.StandardTracker.Release` | src/Core/Tracking/StandardTracker.cs:89-102 | untracked: returns false, no hook call, map unchanged. Tracked: one hook call with the stored context, only that key removed, count down by one, returns true. A null instance is refused |
| `Tracking.StandardTracker.ReleaseContext` | src/Core/Tracking/StandardTracker.cs:111-122 | the hook always runs with the given context. Then it returns whether the context's instance was a key, and removes only that key |
| `Tracking.StandardTracker.ReleaseAll` | src/Core/Tracking/StandardTracker.cs:128-135 | one hook call per tracked entry, with its context, in some enumeration of the keys. The map is left empty and the count is 0 |
| `Tracking.StandardTracker.Dispose` | src/Core/Tracking/StandardTracker.cs:53-59 | managed disposal of an undisposed tracker releases everything. Any other disposal releases nothing. The tracker is disposed afterwards |
| `Tracking.EnumerationLength` | src/Core/Tracking/StandardTracker.cs:132 | an enumeration of the dictionary's keys has as many entries as the dictionary, so the sweep makes exactly ReferenceCount hook calls |
| `Providers.Provider.constructor` | src/Core/Activation/Providers/ProviderBase.cs:66-70 | the prototype is the one given, and the provider is not disposed |
| `Providers.Provider.New` | src/Core/Activation/Providers/ProviderBase.cs:66-70 | a null prototype is refused with an argument-null error. Otherwise a fresh provider holds that prototype |
| `Providers.Provider.Prototype` | src/Core/Activation/Providers/ProviderBase.cs:41-44 | returns the prototype given at construction until disposal, and afterwards either it or none |
| `Providers.Provider.IsCompatibleWith` | src/Core/Activation/Providers/ProviderBase.cs:79-82 | holds exactly when the prototype is still present and the context's service is assignable from it |
| `Providers.Provider.Dispose` | src/Core/Activation/Providers/ProviderBase.cs:52-58 | managed disposal of an undisposed provider clears the prototype, so it is compatible with nothing; otherwise the prototype is unchanged. The provider is disposed afterwards |
| `Providers.Provider.Create` | src/Core/Activation/Providers/InjectionProviderBase.cs:51-57 | a null context and a disposed provider are refused with no call made. Otherwise the result and call trace are those of the injection-constructor specification |
| `Providers.Provider.CallInjectionConstructor` | src/Core/Activation/Providers/InjectionProviderBase.cs:67-79 | no constructor directive gives "no constructors available". Otherwise the directive's injector is applied to exactly the resolved arguments, unless resolution failed |
| `Providers.Provider.ResolveConstructorArguments` | src/Core/Activation/Providers/InjectionProviderBase.cs:88-131 | the array has one slot per directive argument, filled as the resolution specification says. The call trace and the first error are the specification's |
| `ArgumentResolution.ResolvedSlots` | src/Core/Activation/Providers/InjectionProviderBase.cs:90-127 | a successful resolution has one value per argument, and slot i is the value of argument i |
| `ArgumentResolution.SlotValue` | src/Core/Activation/Providers/InjectionProviderBase.cs:95-125 | slot i holds the inline value verbatim when its type is assignable, its conversion when not, and otherwise the resolver's value in the child context built from the member, target and optionality |
| `ArgumentResolution.FirstFailure` | src/Core/Activation/Providers/InjectionProviderBase.cs:101-112 | resolution fails exactly when some argument fails (null inline value, or invalid-cast conversion), and then with the first failing argument's error |
| `ArgumentResolution.FailureIsFinal` | src/Core/Activation/Providers/InjectionProviderBase.cs:108-112 | once an argument fails, no later argument is looked at and no further call is made |
| `ArgumentResolution.CallsOfPrefix` | src/Core/Activation/Providers/InjectionProviderBase.cs:92-127 | the calls made for earlier arguments come first, in order: arguments are handled one after another |
| `ArgumentResolution.ChildrenOnlyWithoutInline` | src/Core/Activation/Providers/InjectionProviderBase.cs:95-125 | every child-context creation and every resolver call belongs to an argument without an inline value, with that argument's target, optionality and resolver |
| `ArgumentResolution.NoDirectiveNoCalls` | src/Core/Activation/Providers/InjectionProviderBase.cs:69-72 | without a constructor directive the construction fails with "no constructors available", making no call, so the injector is never invoked |
| `ArgumentResolution.InjectorGetsResolvedArguments` | src/Core/Activation/Providers/InjectionProviderBase.cs:75-78 | a successful construction makes exactly one injector call, as its last call, on exactly the resolved array, one value per argument, and returns its result; argument resolution itself invokes no injector |
| `Strategies.AfterInitialize` | src/Core/Activation/Strategies/StartableStrategy.cs:38-49 | returns Proceed. A startable instance is started once and marked for tracking. Anything else, null included, gets no call and keeps its flag |
| `Strategies.BeforeDestroy` | src/Core/Activation/Strategies/StartableStrategy.cs:56-64 | returns Proceed. Exactly a startable instance is stopped, once. The context is not changed |
| `Strategies.Lifetime` | src/Core/Activation/Strategies/StartableStrategy.cs:38-64 | over the two phases a startable instance is started, then stopped, and is tracked; any other instance sees no call |
| `Directives.BuildKey` | src/Core/Planning/Directives/MethodInjectionDirective.cs:53-64 | the appending loop builds exactly the key, which starts with the method name |
| `Directives.KeyAt` | src/Core/Planning/Directives/MethodInjectionDirective.cs:57-61 | parameter k's type name sits after the name and the earlier parameters' type names and before the later ones: declaration order, no separators |
| `Directives.KeyWithoutParameters` | src/Core/Planning/Directives/MethodInjectionDirective.cs:57-61 | a method without parameters has its name as its key |
| `Directives.KeyLength` | src/Core/Planning/Directives/MethodInjectionDirective.cs:55-63 | the key's length is the name's length plus the lengths of the parameter type names |
| `Directives.KeyExtends` | src/Core/Planning/Directives/MethodInjectionDirective.cs:60-61 | one more parameter extends the key by exactly its type name |
| `Directives.KeyCollision` | src/Core/Planning/Directives/MethodInjectionDirective.cs:57-61 | two different methods, Foo(BarX) and FooBar(X), share a key |
| `Interception.BeforeInvoke` | src/Core/Interception/SimpleInterceptor.cs:48-50 | the default before-hook performs nothing, and a before-hook's events are its own effects, never a proceed step |
| `Interception.AfterInvoke` | src/Core/Interception/SimpleInterceptor.cs:56-58 | the default after-hook performs nothing, and an after-hook's events are its own effects, never a proceed step |
| `Interception.Intercept` | src/Core/Interception/SimpleInterceptor.cs:37-42 | proceeds exactly once, with the before-hook's effects before and the after-hook's after. When proceeding throws, the after-hook does not run |
| `Interception.HooksAroundProceed` | src/Core/Interception/SimpleInterceptor.cs:39-41 | every before-hook event precedes the proceed step, and every after-hook event follows it |
| `Interception.ProceedsOnce` | src/Core/Interception/SimpleInterceptor.cs:37-42 | the proceed step occurs exactly once per interception |
| `Interception.DefaultTrace` | src/Core/Interception/SimpleInterceptor.cs:48-58 | with the default hooks the trace is the proceed step alone |
| `Interception.ThrowSkipsAfter` | src/Core/Interception/SimpleInterceptor.cs:37-42 | when proceeding throws, the trace ends with it and holds no after-hook event |
| `References.WeakInstanceReference.constructor` | src/Core/Activation/References/WeakInstanceReference.cs:80-84 | holds a fresh weak handle on the given instance, alive exactly when the instance is not null, and the given context |
| `References.WeakInstanceReference.Instance` | src/Core/Activation/References/WeakInstanceReference.cs:43-46 | while the referent is alive, the constructed instance; after collection, null. The handle must not have been cleared by disposal |
| `References.WeakInstanceReference.GetContext` | src/Core/Activation/References/WeakInstanceReference.cs:51-54 | the context given at construction until managed disposal, null after it |
| `References.WeakInstanceReference.Dispose` | src/Core/Activation/References/WeakInstanceReference.cs:62-71 | managed disposal of an undisposed reference clears both fields. Otherwise both are unchanged. The reference is disposed afterwards |
| `References.CollectedReadsNull` | src/Core/Activation/References/WeakInstanceReference.cs:45 | once the collector reclaims the referent, the reference reads null and keeps its context |

## Left out

- The locks around the tracker's dictionary: the model is sequential.
- Logging calls in the tracker: a sink with no effect on behaviour.
- `Convert.ChangeType` failures other than an invalid cast (format or overflow errors) are not modelled. They pass to the caller uncaught.
- The behaviour's release hook, `Start` and `Stop`, the resolvers and the injectors are calls into code outside the model. They are recorded in traces and assumed not to throw. A hook that throws would end `ReleaseAll` before the dictionary is cleared.
- Overriding interceptor hooks (src/Core/Interception/SimpleInterceptor.cs:39,41) are user code. The model gives each hook a fixed list of effects that cannot throw and cannot call `Proceed` itself. A throwing before-hook would stop the invocation from proceeding, and a throwing after-hook would stop part-way. `ProceedsOnce` and `HooksAroundProceed` rest on this.
- The tracker's dictionary (src/Core/Tracking/StandardTracker.cs:35) compares keys with the instance's `Equals` and `GetHashCode`. The model compares instances by identity. Two distinct instances whose type makes them equal would share one entry in the source but have two in the model.
- `ReleaseContext` reads `context.Instance` after the release hook has run (src/Core/Tracking/StandardTracker.cs:115-120). The model's release hook cannot change the context it is given, so a hook that changes the context's instance is not represented.
- A null `IContext` is not modelled: Dafny's `Context` is a non-null reference. The source does different things at each entry point:
  - `Track` with a null context reads it only in the `Default` mode, and there it throws a null-reference exception (src/Core/Tracking/StandardTracker.cs:161). Under TrackNothing it returns at :74. Under TrackEverything it stores the null context at :79.
  - The stored null context throws later, when `Release(instance)` or `ReleaseAll` hands it to the release hook (:144). In `ReleaseAll` the throw ends the sweep before the dictionary is cleared (:133).
  - `ReleaseContext` with a null context throws at the hook call (:144).
  - `StartableStrategy.AfterInitialize`/`BeforeDestroy` throw on `context.Instance` (src/Core/Activation/Strategies/StartableStrategy.cs:40,58).
  - `Provider.IsCompatibleWith` throws on `context.Service` (src/Core/Activation/Providers/ProviderBase.cs:81).
  - `Provider.Create` does model the null case, as its argument check (src/Core/Activation/Providers/InjectionProviderBase.cs:53).
- The weak handle's referent is dropped by an explicit `Collect` event, not by a garbage collector.
- `References.WeakInstanceReference.Instance`: requires that disposal has not cleared the handle. The source dereferences the cleared field there and throws.
- The directive's key caching (the key is built once, then reused) and `GetImplementationType` (abstract in the base class) are not modelled.
- Binding selection, plan building, scope caching, the kernel, dynamic injector generation, the condition syntax and reflection helpers are not part of this model.
