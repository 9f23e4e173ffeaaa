/** The simple interceptor: a template that runs its before-hook, lets the
    invocation proceed, then runs its after-hook. */
module Interception {

  /** An observable step of an interception: an effect of the before-hook,
      the invocation proceeding, or an effect of the after-hook. */
  datatype Event = BeforeEffect(effect: nat) | Proceeded | AfterEffect(effect: nat)

  /** An interceptor, given by the effects its overridden hooks perform. */
  datatype Interceptor = Interceptor(beforeEffects: seq<nat>, afterEffects: seq<nat>)

  /** The interceptor whose hooks are the default ones, which do nothing. */
  const DefaultHooks := Interceptor([], [])

  /** An invocation, given by whether proceeding with it throws. */
  datatype Invocation = Invocation(proceedThrows: bool)

  /** The events a before-hook performs: the default hook performs none,
      and a hook never proceeds by itself. */
  function BeforeInvoke(i: Interceptor): (es: seq<Event>)
    ensures i == DefaultHooks ==> es == []
    ensures forall e :: e in es ==> e.BeforeEffect?
  {
    seq(|i.beforeEffects|, k requires 0 <= k < |i.beforeEffects| => BeforeEffect(i.beforeEffects[k]))
  }

  /** The events an after-hook performs: the default hook performs none,
      and a hook never proceeds by itself. */
  function AfterInvoke(i: Interceptor): (es: seq<Event>)
    ensures i == DefaultHooks ==> es == []
    ensures forall e :: e in es ==> e.AfterEffect?
  {
    seq(|i.afterEffects|, k requires 0 <= k < |i.afterEffects| => AfterEffect(i.afterEffects[k]))
  }

  /** How often `e` occurs in `es`. */
  function Occurrences(es: seq<Event>, e: Event): nat
  {
    if es == [] then 0 else Occurrences(es[..|es| - 1], e) + (if es[|es| - 1] == e then 1 else 0)
  }

  lemma {:induction false} OccurrencesAppend(a: seq<Event>, b: seq<Event>, e: Event)
    ensures Occurrences(a + b, e) == Occurrences(a, e) + Occurrences(b, e)
    decreases |b|
  {
    if b == [] {
      assert a + b == a;
    } else {
      assert (a + b)[..|a + b| - 1] == a + b[..|b| - 1];
      OccurrencesAppend(a, b[..|b| - 1], e);
    }
  }

  lemma {:induction false} NoOccurrences(es: seq<Event>, e: Event)
    requires forall k :: 0 <= k < |es| ==> es[k] != e
    ensures Occurrences(es, e) == 0
  {
    if es != [] {
      NoOccurrences(es[..|es| - 1], e);
    }
  }

  /** The trace of one interception, the specification of `Intercept`. */
  function Trace(i: Interceptor, invocation: Invocation): seq<Event>
  {
    BeforeInvoke(i) + [Proceeded] + (if invocation.proceedThrows then [] else AfterInvoke(i))
  }

  /** Every before-hook effect precedes the proceed step, and every
      after-hook effect follows it. */
  lemma HooksAroundProceed(i: Interceptor, invocation: Invocation)
    ensures var t := Trace(i, invocation);
            forall a, b :: 0 <= a < |t| && 0 <= b < |t| && t[b] == Proceeded ==>
              (t[a].BeforeEffect? ==> a < b) && (t[a].AfterEffect? ==> b < a)
  {
  }

  /** The invocation proceeds exactly once per interception. */
  lemma ProceedsOnce(i: Interceptor, invocation: Invocation)
    ensures Occurrences(Trace(i, invocation), Proceeded) == 1
  {
    var after := if invocation.proceedThrows then [] else AfterInvoke(i);
    OccurrencesAppend(BeforeInvoke(i) + [Proceeded], after, Proceeded);
    OccurrencesAppend(BeforeInvoke(i), [Proceeded], Proceeded);
    NoOccurrences(BeforeInvoke(i), Proceeded);
    NoOccurrences(after, Proceeded);
    assert [Proceeded][..0] == [];
  }

  /** With the default hooks an interception is just the proceed step. */
  lemma DefaultTrace(invocation: Invocation)
    ensures Trace(DefaultHooks, invocation) == [Proceeded]
  {
  }

  /** When proceeding throws, the after-hook does not run: nothing follows
      the proceed step. */
  lemma ThrowSkipsAfter(i: Interceptor, invocation: Invocation)
    requires invocation.proceedThrows
    ensures var t := Trace(i, invocation);
            t[|t| - 1] == Proceeded && forall k :: 0 <= k < |t| ==> !t[k].AfterEffect?
  {
  }

  /** Runs the before-hook, proceeds, and runs the after-hook only when
      proceeding returned normally; `completed` is false when proceeding
      threw, the exception then passing to the caller. */
  method Intercept(i: Interceptor, invocation: Invocation) returns (trace: seq<Event>, completed: bool)
    ensures completed == !invocation.proceedThrows
    ensures trace == Trace(i, invocation)
    ensures Occurrences(trace, Proceeded) == 1
    ensures forall a, b :: 0 <= a < |trace| && 0 <= b < |trace| && trace[b] == Proceeded ==>
              (trace[a].BeforeEffect? ==> a < b) && (trace[a].AfterEffect? ==> b < a)
    ensures !completed ==> forall k :: 0 <= k < |trace| ==> !trace[k].AfterEffect?
  {
    ProceedsOnce(i, invocation);
    HooksAroundProceed(i, invocation);
    trace := BeforeInvoke(i);
    trace := trace + [Proceeded];
    if invocation.proceedThrows {
      return trace, false;
    }
    trace := trace + AfterInvoke(i);
    completed := true;
  }
}
