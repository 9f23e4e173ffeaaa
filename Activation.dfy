/** The shared vocabulary of the activation pipeline: runtime types and
    values, injection targets and directives, plans, bindings, the errors an
    activation can raise, and the activation context. */
module Activation {
  import opened Wrappers

  /** A runtime type. `handle` stands for the type's identity; `fullName`
      is its namespace-qualified name, which the runtime leaves null for
      generic type parameters. */
  datatype TypeRef = TypeRef(handle: nat, fullName: Option<string>)

  /** An object reference: null, or an object with identity `id` whose
      runtime type is `typ`. */
  datatype Value = Null | Obj(id: nat, typ: TypeRef)

  /** Identities of reflection members, dependency resolvers and injectors. */
  type MemberId = nat
  type ResolverId = nat
  type InjectorId = nat

  /** An injectable point: its name and its declared type. */
  datatype Target = Target(name: string, typ: TypeRef)

  /** One constructor argument: its target, whether it may be left
      unresolved, and the resolver that produces its value. */
  datatype Argument = Argument(target: Target, optional: bool, resolver: ResolverId)

  /** The constructor chosen by planning, its ordered arguments and the
      injector that calls it with an argument array. */
  datatype ConstructorDirective =
    ConstructorDirective(member: MemberId, arguments: seq<Argument>, injector: InjectorId)

  /** The part of a behaviour (scope) the tracker consults. */
  datatype Behavior = Behavior(shouldTrackInstances: bool)

  /** An activation plan: its behaviour and its constructor directive, if
      planning found one. */
  datatype Plan = Plan(behavior: Behavior, constructorDirective: Option<ConstructorDirective>)

  /** A binding's inline constructor arguments, keyed by target name. */
  datatype Binding = Binding(inlineArguments: map<string, Value>)

  /** The exceptions an operation of the model can end with. */
  datatype Error =
    | ArgumentNull(parameter: string)                  // ArgumentNullException
    | ObjectDisposed                                   // ObjectDisposedException
    | NoConstructorsAvailable                          // ActivationException
    | InvalidInlineArgument(argument: Argument, value: Value) // ActivationException
    | NullReference                                    // NullReferenceException

  /** One node of an activation: the requested service, the binding and
      plan chosen for it, the instance once it exists, and whether the
      instance must be tracked for release. */
  class Context {
    const service: TypeRef
    const binding: Binding
    const plan: Plan
    var instance: Value
    var shouldTrackInstance: bool

    constructor (service: TypeRef, binding: Binding, plan: Plan, instance: Value)
      ensures this.service == service && this.binding == binding && this.plan == plan
      ensures this.instance == instance && !shouldTrackInstance
    {
      this.service := service;
      this.binding := binding;
      this.plan := plan;
      this.instance := instance;
      shouldTrackInstance := false;
    }
  }
}
