/** The activation strategy that starts startable instances after they are
    initialised (and asks for them to be tracked) and stops them before
    they are destroyed. */
module Strategies {
  import opened Activation

  /** What a strategy tells the pipeline: go on with the next strategy, or
      end the pipeline for this context. */
  datatype StrategyResult = Proceed | Stop

  /** A lifecycle call made on an instance. */
  datatype LifecycleCall = Started(instance: Value) | Stopped(instance: Value)

  /** The cast `instance as IStartable` succeeds: the instance is not null
      and its type implements the startable interface, as `implements`
      tells. */
  predicate IsStartable(instance: Value, implements: TypeRef -> bool)
  {
    instance != Null && implements(instance.typ)
  }

  /** Starts a startable instance and marks it for tracking; always lets
      the pipeline proceed. */
  method AfterInitialize(context: Context, implements: TypeRef -> bool)
    returns (r: StrategyResult, calls: seq<LifecycleCall>)
    modifies context
    ensures r == Proceed
    ensures context.instance == old(context.instance)
    ensures IsStartable(context.instance, implements) ==>
              calls == [Started(context.instance)] && context.shouldTrackInstance
    ensures !IsStartable(context.instance, implements) ==>
              calls == [] && context.shouldTrackInstance == old(context.shouldTrackInstance)
  {
    calls := [];
    if IsStartable(context.instance, implements) {
      calls := calls + [Started(context.instance)];
      context.shouldTrackInstance := true;
    }
    r := Proceed;
  }

  /** Stops a startable instance; always lets the pipeline proceed and
      leaves the context as it is. */
  method BeforeDestroy(context: Context, implements: TypeRef -> bool)
    returns (r: StrategyResult, calls: seq<LifecycleCall>)
    ensures r == Proceed
    ensures IsStartable(context.instance, implements) <==> calls == [Stopped(context.instance)]
    ensures !IsStartable(context.instance, implements) <==> calls == []
  {
    calls := [];
    if IsStartable(context.instance, implements) {
      calls := calls + [Stopped(context.instance)];
    }
    r := Proceed;
  }

  /** Over a whole lifetime a startable instance is started once, then
      stopped once, and it is tracked in between; other instances see no
      lifecycle call and keep their tracking flag. */
  method Lifetime(context: Context, implements: TypeRef -> bool)
    returns (calls: seq<LifecycleCall>)
    modifies context
    ensures IsStartable(context.instance, implements) ==>
              calls == [Started(context.instance), Stopped(context.instance)] && context.shouldTrackInstance
    ensures !IsStartable(context.instance, implements) ==>
              calls == [] && context.shouldTrackInstance == old(context.shouldTrackInstance)
  {
    var r1, c1 := AfterInitialize(context, implements);
    var r2, c2 := BeforeDestroy(context, implements);
    calls := c1 + c2;
  }
}
