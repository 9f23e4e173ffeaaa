/** What resolving a constructor's arguments means: each argument, in
    order, takes its binding's inline value (converted when its type does
    not fit) or, failing that, the value its resolver produces in a fresh
    child context. The runtime services the resolution relies on are
    parameters, and every side-effecting call made to them is recorded. */
module ArgumentResolution {
  import opened Wrappers
  import opened Activation

  /** The request for a child context: the parent, the member being
      injected, the target and its optionality. The context factory's
      answer is abstracted by the request itself. */
  datatype ChildContext = ChildContext(parent: Context, member: MemberId, target: Target, optional: bool)

  /** A call the provider makes into code outside the model. */
  datatype Call =
    | CreateChild(child: ChildContext)
    | Resolve(resolver: ResolverId, child: ChildContext)
    | Convert(value: Value, to: TypeRef)
    | Invoke(injector: InjectorId, arguments: seq<Value>)

  /** The runtime services the provider consults:
      `assignable(t, s)` is `t.IsAssignableFrom(s)`;
      `convert(v, t)` is `Convert.ChangeType(v, t)`, `None` when it throws an
      invalid-cast exception; `resolve(r, outer, inner)` is resolver `r`'s
      answer; `invoke(i, args)` is injector `i` called with `args`. */
  datatype Runtime = Runtime(
    assignable: (TypeRef, TypeRef) -> bool,
    convert: (Value, TypeRef) -> Option<Value>,
    resolve: (ResolverId, Context, ChildContext) -> Value,
    invoke: (InjectorId, seq<Value>) -> Value)

  /** An outcome together with the calls made to reach it, in order. */
  datatype Resolution<T> = Resolution(result: Result<T, Error>, calls: seq<Call>)

  /** True when the binding of `context` overrides `argument` inline. */
  predicate HasInline(context: Context, argument: Argument)
  {
    argument.target.name in context.binding.inlineArguments
  }

  /** The child context requested for an argument without inline value. */
  function ChildFor(context: Context, member: MemberId, argument: Argument): ChildContext
  {
    ChildContext(context, member, argument.target, argument.optional)
  }

  /** The value of one argument. */
  function ResolveArgument(context: Context, member: MemberId, argument: Argument, rt: Runtime): Resolution<Value>
  {
    if HasInline(context, argument) then
      var v := context.binding.inlineArguments[argument.target.name];
      if v == Null then
        Resolution(Failure(NullReference), [])
      else if rt.assignable(argument.target.typ, v.typ) then
        Resolution(Success(v), [])
      else
        var calls := [Convert(v, argument.target.typ)];
        match rt.convert(v, argument.target.typ)
        case None => Resolution(Failure(InvalidInlineArgument(argument, v)), calls)
        case Some(w) => Resolution(Success(w), calls)
    else
      var child := ChildFor(context, member, argument);
      Resolution(Success(rt.resolve(argument.resolver, context, child)),
                 [CreateChild(child), Resolve(argument.resolver, child)])
  }

  /** The values of `arguments`, resolved left to right; the first
      argument that fails ends the resolution with its error. */
  function ResolveArguments(context: Context, member: MemberId, arguments: seq<Argument>, rt: Runtime): Resolution<seq<Value>>
  {
    if arguments == [] then Resolution(Success([]), [])
    else
      var previous := ResolveArguments(context, member, arguments[..|arguments| - 1], rt);
      if previous.result.Failure? then previous
      else
        var step := ResolveArgument(context, member, arguments[|arguments| - 1], rt);
        Resolution(if step.result.Failure? then Failure(step.result.error)
                   else Success(previous.result.value + [step.result.value]),
                   previous.calls + step.calls)
  }

  /** The instance the injection constructor produces for `context`: none
      when the plan has no constructor directive, otherwise the injector
      applied to the resolved arguments. */
  function Construction(context: Context, rt: Runtime): Resolution<Value>
  {
    match context.plan.constructorDirective
    case None => Resolution(Failure(NoConstructorsAvailable), [])
    case Some(d) =>
      var args := ResolveArguments(context, d.member, d.arguments, rt);
      if args.result.Failure? then Resolution(Failure(args.result.error), args.calls)
      else Resolution(Success(rt.invoke(d.injector, args.result.value)),
                      args.calls + [Invoke(d.injector, args.result.value)])
  }

  /** A successful resolution yields one value per argument, and slot `i`
      holds the value of argument `i`. */
  lemma {:induction false} ResolvedSlots(context: Context, member: MemberId, arguments: seq<Argument>, rt: Runtime)
    requires ResolveArguments(context, member, arguments, rt).result.Success?
    ensures var vs := ResolveArguments(context, member, arguments, rt).result.value;
            && |vs| == |arguments|
            && forall i :: 0 <= i < |arguments| ==>
                 ResolveArgument(context, member, arguments[i], rt).result == Success(vs[i])
  {
    if arguments != [] {
      var init := arguments[..|arguments| - 1];
      ResolvedSlots(context, member, init, rt);
      var vs := ResolveArguments(context, member, arguments, rt).result.value;
      forall i | 0 <= i < |arguments|
        ensures ResolveArgument(context, member, arguments[i], rt).result == Success(vs[i])
      {
        if i < |init| {
          assert arguments[i] == init[i];
        }
      }
    }
  }

  /** The resolution fails exactly when some argument fails, and then with
      the error of the first failing argument. */
  lemma {:induction false} FirstFailure(context: Context, member: MemberId, arguments: seq<Argument>, rt: Runtime)
    ensures var r := ResolveArguments(context, member, arguments, rt).result;
            r.Failure? <==> exists i :: 0 <= i < |arguments| && ResolveArgument(context, member, arguments[i], rt).result.Failure?
    ensures var r := ResolveArguments(context, member, arguments, rt).result;
            r.Failure? ==> exists i :: && 0 <= i < |arguments|
                                      && (forall j :: 0 <= j < i ==> ResolveArgument(context, member, arguments[j], rt).result.Success?)
                                      && ResolveArgument(context, member, arguments[i], rt).result == Failure(r.error)
  {
    if arguments != [] {
      var n := |arguments| - 1;
      var init := arguments[..n];
      FirstFailure(context, member, init, rt);
      assert forall i :: 0 <= i < n ==> init[i] == arguments[i];
      if ResolveArguments(context, member, init, rt).result.Success? {
        ResolvedSlots(context, member, init, rt);
      }
    }
  }

  /** Once a prefix of the arguments fails, no later argument is looked
      at: the whole resolution is that of the prefix. */
  lemma {:induction false} FailureIsFinal(context: Context, member: MemberId, arguments: seq<Argument>, k: nat, rt: Runtime)
    requires k <= |arguments|
    requires ResolveArguments(context, member, arguments[..k], rt).result.Failure?
    ensures ResolveArguments(context, member, arguments, rt) == ResolveArguments(context, member, arguments[..k], rt)
    decreases |arguments|
  {
    if k < |arguments| {
      var init := arguments[..|arguments| - 1];
      assert init[..k] == arguments[..k];
      FailureIsFinal(context, member, init, k, rt);
    } else {
      assert arguments[..k] == arguments;
    }
  }

  /** The calls made for a prefix of the arguments come first, in the same
      order: arguments are handled strictly one after another. */
  lemma {:induction false} CallsOfPrefix(context: Context, member: MemberId, arguments: seq<Argument>, k: nat, rt: Runtime)
    requires k <= |arguments|
    ensures ResolveArguments(context, member, arguments[..k], rt).calls <= ResolveArguments(context, member, arguments, rt).calls
    decreases |arguments|
  {
    if k < |arguments| {
      var init := arguments[..|arguments| - 1];
      assert init[..k] == arguments[..k];
      CallsOfPrefix(context, member, init, k, rt);
    } else {
      assert arguments[..k] == arguments;
    }
  }

  /** Only arguments without an inline value request a child context or
      consult their resolver, and the child they request is built from the
      directive's member and the argument's own target and optionality. */
  lemma {:induction false} ChildrenOnlyWithoutInline(context: Context, member: MemberId, arguments: seq<Argument>, rt: Runtime)
    ensures forall c :: c in ResolveArguments(context, member, arguments, rt).calls && (c.CreateChild? || c.Resolve?) ==>
              exists i :: 0 <= i < |arguments| && !HasInline(context, arguments[i])
                          && c.child == ChildFor(context, member, arguments[i])
                          && (c.Resolve? ==> c.resolver == arguments[i].resolver)
  {
    if arguments != [] {
      var n := |arguments| - 1;
      var init := arguments[..n];
      ChildrenOnlyWithoutInline(context, member, init, rt);
      assert forall i :: 0 <= i < n ==> init[i] == arguments[i];
    }
  }

  /** Slot `i` of a successful resolution: the inline value itself when its
      type is assignable to the target's, its conversion when not, and the
      resolver's answer in the argument's child context when there is no
      inline value. */
  lemma SlotValue(context: Context, member: MemberId, arguments: seq<Argument>, rt: Runtime, i: nat)
    requires ResolveArguments(context, member, arguments, rt).result.Success?
    requires i < |arguments|
    ensures var vs := ResolveArguments(context, member, arguments, rt).result.value;
            var a := arguments[i];
            var inline := context.binding.inlineArguments;
            && i < |vs|
            && (HasInline(context, a) ==> inline[a.target.name] != Null)
            && (HasInline(context, a) && rt.assignable(a.target.typ, inline[a.target.name].typ) ==>
                  vs[i] == inline[a.target.name])
            && (HasInline(context, a) && !rt.assignable(a.target.typ, inline[a.target.name].typ) ==>
                  rt.convert(inline[a.target.name], a.target.typ) == Some(vs[i]))
            && (!HasInline(context, a) ==>
                  vs[i] == rt.resolve(a.resolver, context, ChildFor(context, member, a)))
  {
    ResolvedSlots(context, member, arguments, rt);
  }

  /** Without a constructor directive the construction fails before any
      call is made, so the injector is never invoked. */
  lemma NoDirectiveNoCalls(context: Context, rt: Runtime)
    requires context.plan.constructorDirective.None?
    ensures Construction(context, rt) == Resolution(Failure(NoConstructorsAvailable), [])
  {
  }

  /** Resolving arguments never invokes an injector. */
  lemma {:induction false} NoInvokeInArguments(context: Context, member: MemberId, arguments: seq<Argument>, rt: Runtime)
    ensures forall c :: c in ResolveArguments(context, member, arguments, rt).calls ==> !c.Invoke?
  {
    if arguments != [] {
      NoInvokeInArguments(context, member, arguments[..|arguments| - 1], rt);
    }
  }

  /** A successful construction ends with exactly one injector call, made
      with exactly the resolved arguments, one per directive argument. */
  lemma InjectorGetsResolvedArguments(context: Context, rt: Runtime)
    requires Construction(context, rt).result.Success?
    ensures var d := context.plan.constructorDirective.value;
            var args := ResolveArguments(context, d.member, d.arguments, rt);
            && args.result.Success?
            && |args.result.value| == |d.arguments|
            && Construction(context, rt).calls == args.calls + [Invoke(d.injector, args.result.value)]
            && Construction(context, rt).result == Success(rt.invoke(d.injector, args.result.value))
            && forall c :: c in args.calls ==> !c.Invoke?
  {
    var d := context.plan.constructorDirective.value;
    NoInvokeInArguments(context, d.member, d.arguments, rt);
    ResolvedSlots(context, member := d.member, arguments := d.arguments, rt := rt);
  }
}
