/** The standard tracker: remembers, for each activated instance that needs
    an explicit release, the context it was activated in, and drives the
    release of those instances through their behaviour. */
module Tracking {
  import opened Wrappers
  import opened Activation

  /** The kernel option that decides which instances are tracked. */
  datatype InstanceTrackingMode = Default | TrackEverything | TrackNothing

  /** True when `order` lists every key of `m` exactly once. */
  ghost predicate EnumeratesKeys<K, V>(order: seq<K>, m: map<K, V>)
  {
    && (forall i, j :: 0 <= i < j < |order| ==> order[i] != order[j])
    && (forall i :: 0 <= i < |order| ==> order[i] in m)
    && (forall k :: k in m ==> k in order)
  }

  /** The values of `m` visited in the order `order` gives its keys. */
  ghost function ValuesInOrder<K, V>(m: map<K, V>, order: seq<K>): (vs: seq<V>)
    requires forall i :: 0 <= i < |order| ==> order[i] in m
    ensures |vs| == |order|
    ensures forall i :: 0 <= i < |order| ==> vs[i] == m[order[i]]
  {
    seq(|order|, i requires 0 <= i < |order| => m[order[i]])
  }

  /** A sequence without repetitions is as long as the set of its elements. */
  lemma {:induction false} DistinctLength<K>(s: seq<K>)
    requires forall i, j :: 0 <= i < j < |s| ==> s[i] != s[j]
    ensures |set k | k in s| == |s|
  {
    if s != [] {
      var rest := s[1..];
      DistinctLength(rest);
      assert (set k | k in s) == (set k | k in rest) + {s[0]};
      assert s[0] !in rest;
    }
  }

  /** An enumeration of a map's keys has one entry per entry of the map:
      releasing every enumerated key releases exactly `|m|` contexts. */
  lemma EnumerationLength<K, V>(order: seq<K>, m: map<K, V>)
    requires EnumeratesKeys(order, m)
    ensures |order| == |m|
  {
    DistinctLength(order);
    assert (set k | k in order) == m.Keys;
  }

  class StandardTracker {
    /** The kernel's instance tracking mode. */
    const mode: InstanceTrackingMode
    /** The instance-to-context cache. */
    var cache: map<Value, Context>
    /** Every call of a behaviour's release hook, in order, with the
        context it was given. */
    var released: seq<Context>
    var disposed: bool

    /** The dictionary never holds a null key. */
    ghost predicate Valid()
      reads this
    {
      Null !in cache
    }

    constructor (mode: InstanceTrackingMode)
      ensures Valid()
      ensures this.mode == mode && cache == map[] && released == [] && !disposed
    {
      this.mode := mode;
      cache := map[];
      released := [];
      disposed := false;
    }

    /** The number of instances currently tracked. */
    function ReferenceCount(): (n: nat)
      reads this
      ensures n == |cache.Keys|
    {
      |cache|
    }

    /** Whether an instance activated in `context` is to be tracked. */
    predicate ShouldTrack(context: Context)
      ensures mode == TrackEverything ==> ShouldTrack(context)
      ensures mode == TrackNothing ==> !ShouldTrack(context)
      ensures mode == Default ==> (ShouldTrack(context) <==> context.plan.behavior.shouldTrackInstances)
    {
      match mode
      case TrackEverything => true
      case TrackNothing => false
      case Default => context.plan.behavior.shouldTrackInstances
    }

    /** Begins tracking `instance`, activated in `context`, unless the
        tracking mode says not to. A null instance is rejected by the
        dictionary. */
    method Track(instance: Value, context: Context) returns (r: Outcome<Error>)
      requires Valid()
      modifies this
      ensures Valid()
      ensures !ShouldTrack(context) ==> r == Pass && cache == old(cache)
      ensures ShouldTrack(context) && instance == Null ==>
                r == Fail(ArgumentNull("key")) && cache == old(cache)
      ensures ShouldTrack(context) && instance != Null ==>
                r == Pass && cache == old(cache)[instance := context]
      ensures ReferenceCount() == old(ReferenceCount())
                + (if r == Pass && instance !in old(cache) && ShouldTrack(context) then 1 else 0)
      ensures released == old(released) && disposed == old(disposed)
    {
      if !ShouldTrack(context) {
        return Pass;
      }
      if instance == Null {
        return Fail(ArgumentNull("key"));
      }
      cache := cache[instance := context];
      r := Pass;
    }

    /** Runs the release hook of the context's behaviour. */
    method DoRelease(context: Context)
      modifies this`released
      ensures released == old(released) + [context]
    {
      released := released + [context];
    }

    /** Releases a tracked instance through the context it was activated
        in and stops tracking it; answers whether it was tracked. */
    method Release(instance: Value) returns (r: Result<bool, Error>)
      requires Valid()
      modifies this
      ensures Valid() && disposed == old(disposed)
      ensures instance == Null ==>
                r == Failure(ArgumentNull("key")) && cache == old(cache) && released == old(released)
      ensures instance != Null && instance !in old(cache) ==>
                r == Success(false) && cache == old(cache) && released == old(released)
      ensures instance in old(cache) ==>
                && r == Success(true)
                && released == old(released) + [old(cache)[instance]]
                && cache == old(cache) - {instance}
                && ReferenceCount() == old(ReferenceCount()) - 1
    {
      if instance == Null {
        return Failure(ArgumentNull("key"));
      }
      if instance !in cache {
        return Success(false);
      }
      var context := cache[instance];
      DoRelease(context);
      cache := cache - {instance};
      r := Success(true);
    }

    /** Releases the instance of `context` through `context` itself, whether
        or not it is tracked, then stops tracking it; answers whether the
        instance was tracked. */
    method ReleaseContext(context: Context) returns (r: Result<bool, Error>)
      requires Valid()
      modifies this
      ensures Valid() && disposed == old(disposed)
      ensures released == old(released) + [context]
      ensures context.instance == Null ==>
                r == Failure(ArgumentNull("key")) && cache == old(cache)
      ensures context.instance != Null ==>
                && r == Success(context.instance in old(cache))
                && cache == old(cache) - {context.instance}
      ensures ReferenceCount() == old(ReferenceCount())
                - (if context.instance in old(cache) then 1 else 0)
    {
      DoRelease(context);
      if context.instance == Null {
        return Failure(ArgumentNull("key"));
      }
      if context.instance !in cache {
        return Success(false);
      }
      cache := cache - {context.instance};
      r := Success(true);
    }

    /** Releases every tracked instance, in the dictionary's own order
        (`order`), then forgets them all. */
    method ReleaseAll() returns (ghost order: seq<Value>)
      requires Valid()
      modifies this
      ensures Valid() && disposed == old(disposed)
      ensures EnumeratesKeys(order, old(cache))
      ensures released == old(released) + ValuesInOrder(old(cache), order)
      ensures |released| == |old(released)| + old(ReferenceCount())
      ensures cache == map[] && ReferenceCount() == 0
    {
      var pending := cache.Keys;
      order := [];
      while pending != {}
        invariant cache == old(cache) && disposed == old(disposed)
        invariant pending <= cache.Keys
        invariant forall i :: 0 <= i < |order| ==> order[i] in cache && order[i] !in pending
        invariant forall i, j :: 0 <= i < j < |order| ==> order[i] != order[j]
        invariant forall k :: k in cache && k !in pending ==> k in order
        invariant released == old(released) + ValuesInOrder(cache, order)
        decreases pending
      {
        var instance :| instance in pending;
        DoRelease(cache[instance]);
        order := order + [instance];
        pending := pending - {instance};
      }
      EnumerationLength(order, cache);
      cache := map[];
    }

    /** Disposing the tracker releases everything it tracks, the first time
        only, and only when called for managed disposal. */
    method Dispose(disposing: bool) returns (ghost order: seq<Value>)
      requires Valid()
      modifies this
      ensures Valid() && disposed
      ensures disposing && !old(disposed) ==>
                && EnumeratesKeys(order, old(cache))
                && released == old(released) + ValuesInOrder(old(cache), order)
                && cache == map[]
      ensures !(disposing && !old(disposed)) ==>
                released == old(released) && cache == old(cache)
    {
      order := [];
      if disposing && !disposed {
        order := ReleaseAll();
      }
      disposed := true;
    }
  }
}
