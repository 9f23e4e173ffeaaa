/** A weak reference to an activated instance together with the context it
    was activated in. The garbage collector's part is an explicit liveness
    flag on the weak handle. */
module References {
  import opened Activation

  /** The runtime's weak handle on an object. The collector may drop the
      referent at any time; `Collect` is that event. */
  class WeakReference {
    var target: Value
    var isAlive: bool

    /** A handle is alive exactly while it still reaches its object. */
    ghost predicate Valid()
      reads this
    {
      isAlive <==> target != Null
    }

    constructor (target: Value)
      ensures Valid() && this.target == target
    {
      this.target := target;
      isAlive := target != Null;
    }

    /** The collector reclaims the referent. */
    method Collect()
      modifies this
      ensures Valid() && !isAlive
    {
      target := Null;
      isAlive := false;
    }
  }

  class WeakInstanceReference {
    /** The weak handle; null once disposed of. */
    var instance: WeakReference?
    var context: Context?
    var disposed: bool
    /** The instance and context given at construction. */
    ghost const referent: Value
    ghost const activation: Context?

    /** The handle reaches nothing but the original instance, and the
        fields are the constructed ones until disposal clears both. */
    ghost predicate Valid()
      reads this, instance
    {
      && (instance != null ==> instance.Valid() && (instance.isAlive ==> instance.target == referent))
      && (instance != null ==> context == activation)
      && (instance == null ==> disposed && context == null)
      && (!disposed ==> instance != null)
    }

    constructor (instance: Value, context: Context?)
      ensures Valid() && !disposed && fresh(this.instance)
      ensures referent == instance && activation == context
      ensures this.instance.isAlive <==> instance != Null
    {
      var handle := new WeakReference(instance);
      this.instance := handle;
      this.context := context;
      referent := instance;
      activation := context;
      disposed := false;
    }

    /** The instance while the collector has not reclaimed it, null after.
        The handle must not have been cleared by disposal. */
    function Instance(): (v: Value)
      requires instance != null && Valid()
      reads this, instance
      ensures instance.isAlive ==> v == referent
      ensures !instance.isAlive ==> v == Null
    {
      if !instance.isAlive then Null else instance.target
    }

    /** The context the instance was activated in: the constructed one
        until managed disposal. */
    function GetContext(): (c: Context?)
      requires Valid()
      reads this, instance
      ensures instance != null ==> c == activation
      ensures instance == null ==> c == null
    {
      context
    }

    /** Managed disposal of an undisposed reference clears both fields;
        otherwise they stay as they are. */
    method Dispose(disposing: bool)
      requires Valid()
      modifies this
      ensures Valid() && disposed
      ensures disposing && !old(disposed) ==> instance == null && context == null
      ensures !(disposing && !old(disposed)) ==> instance == old(instance) && context == old(context)
    {
      if disposing && !disposed {
        instance := null;
        context := null;
      }
      disposed := true;
    }
  }

  /** After the collector reclaims the referent the reference reads null,
      while its context is unaffected. */
  method CollectedReadsNull(r: WeakInstanceReference)
    requires r.instance != null && r.Valid()
    modifies r.instance
    ensures r.Valid() && r.Instance() == Null && r.GetContext() == r.activation
  {
    r.instance.Collect();
  }
}
