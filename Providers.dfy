/** A provider that creates instances by calling the injection constructor
    of the context's plan. The base provider's state (its prototype and
    disposal) and the injection provider's creation logic live in one class
    here, since Dafny classes do not inherit from one another. */
module Providers {
  import opened Wrappers
  import opened Activation
  import opened ArgumentResolution

  class Provider {
    /** The type the provider instantiates; `None` once disposed of. */
    var prototype: Option<TypeRef>
    var disposed: bool
    /** The prototype given at construction. */
    ghost const original: TypeRef

    /** The prototype is the original one until managed disposal clears
        it, which can only happen once the provider is disposed of. */
    ghost predicate Valid()
      reads this
    {
      && (prototype == None || prototype == Some(original))
      && (!disposed ==> prototype == Some(original))
    }

    constructor (prototype: TypeRef)
      ensures Valid() && !disposed
      ensures this.original == prototype && this.prototype == Some(prototype)
    {
      this.prototype := Some(prototype);
      original := prototype;
      disposed := false;
    }

    /** Construction with the argument check: a null prototype is refused. */
    static method New(prototype: Option<TypeRef>) returns (r: Result<Provider, Error>)
      ensures prototype == None <==> r.Failure?
      ensures r.Failure? ==> r.error == ArgumentNull("prototype")
      ensures r.Success? ==> fresh(r.value) && r.value.Valid() && !r.value.disposed
                             && r.value.prototype == prototype
    {
      if prototype == None {
        return Failure(ArgumentNull("prototype"));
      }
      var p := new Provider(prototype.value);
      r := Success(p);
    }

    /** The prototype: the one given at construction until disposal. */
    function Prototype(): (p: Option<TypeRef>)
      requires Valid()
      reads this
      ensures !disposed ==> p == Some(original)
      ensures p == None || p == Some(original)
    {
      prototype
    }

    /** Whether the provider can serve `context`: its service must be
        assignable from the prototype. A disposed provider has no prototype,
        and nothing is assignable from a missing type. */
    predicate IsCompatibleWith(context: Context, assignable: (TypeRef, TypeRef) -> bool)
      requires Valid()
      reads this
      ensures IsCompatibleWith(context, assignable) <==>
                prototype != None && assignable(context.service, original)
      ensures !disposed ==> (IsCompatibleWith(context, assignable) <==> assignable(context.service, original))
    {
      match prototype
      case None => false
      case Some(p) => assignable(context.service, p)
    }

    /** Managed disposal of an undisposed provider clears the prototype;
        either way the provider is disposed of afterwards. */
    method Dispose(disposing: bool)
      requires Valid()
      modifies this
      ensures Valid() && disposed
      ensures prototype == if disposing && !old(disposed) then None else old(prototype)
      ensures disposing && !old(disposed) ==> forall c, a :: !IsCompatibleWith(c, a)
    {
      if disposing && !disposed {
        prototype := None;
      }
      disposed := true;
    }

    /** Creates an instance for `context` by calling the injection
        constructor; refuses a null context and a disposed provider. */
    method Create(context: Context?, rt: Runtime) returns (r: Result<Value, Error>, calls: seq<Call>)
      ensures context == null ==> r == Failure(ArgumentNull("context")) && calls == []
      ensures context != null && disposed ==> r == Failure(ObjectDisposed) && calls == []
      ensures context != null && !disposed ==>
                Resolution(r, calls) == Construction(context, rt)
    {
      if context == null {
        return Failure(ArgumentNull("context")), [];
      }
      if disposed {
        return Failure(ObjectDisposed), [];
      }
      r, calls := CallInjectionConstructor(context, rt);
    }

    /** Finds the plan's constructor directive, resolves its arguments and
        hands them to the directive's injector. */
    method CallInjectionConstructor(context: Context, rt: Runtime) returns (r: Result<Value, Error>, calls: seq<Call>)
      ensures Resolution(r, calls) == Construction(context, rt)
    {
      if context.plan.constructorDirective == None {
        return Failure(NoConstructorsAvailable), [];
      }
      var directive := context.plan.constructorDirective.value;
      var arguments;
      arguments, calls := ResolveConstructorArguments(context, directive, rt);
      if arguments.Failure? {
        return Failure(arguments.error), calls;
      }
      var values := arguments.value[..];
      calls := calls + [Invoke(directive.injector, values)];
      r := Success(rt.invoke(directive.injector, values));
    }

    /** Fills an argument array position by position. */
    method ResolveConstructorArguments(context: Context, directive: ConstructorDirective, rt: Runtime)
      returns (r: Result<array<Value>, Error>, calls: seq<Call>)
      ensures var spec := ResolveArguments(context, directive.member, directive.arguments, rt);
              && calls == spec.calls
              && (r.Failure? <==> spec.result.Failure?)
              && (r.Failure? ==> r.error == spec.result.error)
              && (r.Success? ==> r.value.Length == |directive.arguments| && r.value[..] == spec.result.value)
    {
      var arguments := new Value[|directive.arguments|](_ => Null);
      calls := [];
      var index := 0;
      while index < |directive.arguments|
        invariant 0 <= index <= |directive.arguments|
        invariant ResolveArguments(context, directive.member, directive.arguments[..index], rt)
                  == Resolution(Success(arguments[..index]), calls)
      {
        var argument := directive.arguments[index];
        assert directive.arguments[..index + 1][..index] == directive.arguments[..index];
        assert directive.arguments[..index + 1][index] == argument;
        if argument.target.name in context.binding.inlineArguments {
          // An inline argument overrides any injection.
          var inlineArgument := context.binding.inlineArguments[argument.target.name];
          if inlineArgument == Null {
            FailureIsFinal(context, directive.member, directive.arguments, index + 1, rt);
            return Failure(NullReference), calls;
          }
          if !rt.assignable(argument.target.typ, inlineArgument.typ) {
            calls := calls + [Convert(inlineArgument, argument.target.typ)];
            var converted := rt.convert(inlineArgument, argument.target.typ);
            if converted == None {
              FailureIsFinal(context, directive.member, directive.arguments, index + 1, rt);
              return Failure(InvalidInlineArgument(argument, inlineArgument)), calls;
            }
            inlineArgument := converted.value;
          }
          arguments[index] := inlineArgument;
        } else {
          var injectionContext := ChildContext(context, directive.member, argument.target, argument.optional);
          calls := calls + [CreateChild(injectionContext)];
          arguments[index] := rt.resolve(argument.resolver, context, injectionContext);
          calls := calls + [Resolve(argument.resolver, injectionContext)];
        }
        assert arguments[..index + 1] == arguments[..index] + [arguments[index]];
        index := index + 1;
      }
      assert directive.arguments[..index] == directive.arguments;
      r := Success(arguments);
    }
  }
}
