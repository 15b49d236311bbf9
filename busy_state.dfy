/** DelayedBusyState.cs: one pending callback per operation key plus a busy flag.
    A callback is known only by an id; running it appends an `Invocation` to `log`. */
module BusyState {

  /** A callback (`executionCallback`), known only by identity. */
  type Handler = nat

  datatype Invocation = Invocation(key: string, handler: Handler)

  /** `added` runs every pending callback exactly once, each under its own key,
      in some order (the enumeration order of the dictionary is not fixed). */
  ghost predicate IsDrainOf(pending: map<string, Handler>, added: seq<Invocation>) {
    && (forall i :: 0 <= i < |added| ==> added[i].key in pending && added[i].handler == pending[added[i].key])
    && (forall k :: k in pending ==> exists i :: 0 <= i < |added| && added[i].key == k)
    && (forall i, j :: 0 <= i < j < |added| ==> added[i].key != added[j].key)
  }

  /** The callbacks `added` ran under `key`, in order. */
  function HandlersFor(added: seq<Invocation>, key: string): (r: seq<Handler>)
    ensures |r| <= |added|
  {
    if added == [] then []
    else (if added[0].key == key then [added[0].handler] else []) + HandlersFor(added[1..], key)
  }

  /** A drain runs the callback pending under `key` once and nothing else under that key. */
  lemma {:induction false} DrainRunsPendingOnce(pending: map<string, Handler>, added: seq<Invocation>, key: string)
    requires IsDrainOf(pending, added)
    ensures HandlersFor(added, key) == if key in pending then [pending[key]] else []
  {
    if key in pending {
      var i :| 0 <= i < |added| && added[i].key == key;
      SingleMatch(added, key, i);
    } else {
      NoMatch(added, key);
    }
  }

  lemma {:induction false} SingleMatch(added: seq<Invocation>, key: string, i: nat)
    requires i < |added| && added[i].key == key
    requires forall j :: 0 <= j < |added| && j != i ==> added[j].key != key
    ensures HandlersFor(added, key) == [added[i].handler]
    decreases |added|
  {
    if i == 0 {
      NoMatch(added[1..], key);
    } else {
      SingleMatch(added[1..], key, i - 1);
    }
  }

  lemma {:induction false} NoMatch(added: seq<Invocation>, key: string)
    requires forall j :: 0 <= j < |added| ==> added[j].key != key
    ensures HandlersFor(added, key) == []
    decreases |added|
  {
    if added != [] {
      NoMatch(added[1..], key);
    }
  }

  /** Loop invariant of invokeAll: `added` ran exactly the callbacks of `pending`
      that are no longer in `remaining`. */
  ghost predicate DrainProgress(pending: map<string, Handler>, remaining: map<string, Handler>, added: seq<Invocation>) {
    && (forall k :: k in remaining ==> k in pending && remaining[k] == pending[k])
    && (forall i :: 0 <= i < |added| ==> added[i].key in pending && added[i].key !in remaining)
    && (forall i :: 0 <= i < |added| ==> added[i].handler == pending[added[i].key])
    && (forall k :: k in pending && k !in remaining ==> exists i :: 0 <= i < |added| && added[i].key == k)
    && (forall i, j :: 0 <= i < j < |added| ==> added[i].key != added[j].key)
  }

  lemma DrainStep(pending: map<string, Handler>, remaining: map<string, Handler>, added: seq<Invocation>, k: string)
    requires DrainProgress(pending, remaining, added) && k in remaining
    ensures DrainProgress(pending, remaining - {k}, added + [Invocation(k, remaining[k])])
  {
    var added' := added + [Invocation(k, remaining[k])];
    forall k' | k' in pending && k' !in remaining - {k}
      ensures exists i :: 0 <= i < |added'| && added'[i].key == k'
    {
      if k' == k {
        assert added'[|added|].key == k';
      } else {
        var i :| 0 <= i < |added| && added[i].key == k';
        assert added'[i].key == k';
      }
    }
  }

  class DelayedBusyState {
    /** The pending callbacks, at most one per key. */
    var handlers: map<string, Handler>
    /** The `isBusy` flag. */
    var busy: bool
    /** Every callback run so far, in the order it ran. */
    var log: seq<Invocation>

    constructor ()
      ensures handlers == map[] && !busy && log == []
    {
      handlers := map[];
      busy := false;
      log := [];
    }

    /** The `isBusy` setter: stores the flag first and, when it is cleared, drains. */
    method SetBusy(value: bool)
      modifies this
      ensures busy == value
      ensures value ==> handlers == old(handlers) && log == old(log)
      ensures !value ==> handlers == map[]
      ensures !value ==> |old(log)| <= |log| && log[..|old(log)|] == old(log)
      ensures !value ==> IsDrainOf(old(handlers), log[|old(log)|..])
    {
      busy := value;
      if !value {
        InvokeAll();
      }
    }

    /** invokeASAP: replace the callback pending under `key`, then drain if idle. */
    method InvokeASAP(key: string, handler: Handler)
      modifies this
      ensures busy == old(busy)
      ensures old(busy) ==> handlers == old(handlers)[key := handler] && log == old(log)
      ensures !old(busy) ==> handlers == map[]
      ensures !old(busy) ==> |old(log)| <= |log| && log[..|old(log)|] == old(log)
      ensures !old(busy) ==> IsDrainOf(old(handlers)[key := handler], log[|old(log)|..])
    {
      if key in handlers {
        handlers := handlers - {key};
      }
      // AddOrUpdate keeps a value already present, and adds otherwise
      handlers := if key in handlers then handlers else handlers[key := handler];
      assert handlers == old(handlers)[key := handler];
      if !busy {
        InvokeAll();
      }
    }

    /** invokeAll: each callback leaves the map before it runs. */
    method InvokeAll()
      modifies this`handlers, this`log
      ensures handlers == map[]
      ensures |old(log)| <= |log| && log[..|old(log)|] == old(log)
      ensures IsDrainOf(old(handlers), log[|old(log)|..])
    {
      ghost var pending := handlers;
      ghost var added: seq<Invocation> := [];
      while handlers != map[]
        invariant DrainProgress(pending, handlers, added)
        invariant log == old(log) + added
        decreases |handlers|
      {
        var k :| k in handlers;
        var h := handlers[k];
        DrainStep(pending, handlers, added, k);
        handlers := handlers - {k};
        log := log + [Invocation(k, h)];
        added := added + [Invocation(k, h)];
      }
      assert log[|old(log)|..] == added;
    }

    /** UnsubscribeASAPEvent, called by the bundler but defined in no file of the
        model's sources: taken to drop the callback pending under `key`. */
    method UnsubscribeASAPEvent(key: string)
      modifies this`handlers
      ensures handlers == old(handlers) - {key}
    {
      handlers := handlers - {key};
    }
  }

  /** While busy, triggers `burst` for one key followed by clearing the flag run the
      last trigger's callback exactly once and none of the earlier ones. */
  method Coalesce(c: DelayedBusyState, key: string, burst: seq<Handler>)
    requires c.busy && |burst| > 0
    modifies c
    ensures !c.busy && c.handlers == map[]
    ensures |old(c.log)| <= |c.log| && c.log[..|old(c.log)|] == old(c.log)
    ensures HandlersFor(c.log[|old(c.log)|..], key) == [burst[|burst| - 1]]
    ensures forall k :: k != key && k in old(c.handlers) ==> HandlersFor(c.log[|old(c.log)|..], k) == [old(c.handlers)[k]]
  {
    var i := 0;
    while i < |burst|
      invariant 0 <= i <= |burst|
      invariant c.busy && c.log == old(c.log)
      invariant i > 0 ==> c.handlers == old(c.handlers)[key := burst[i - 1]]
      invariant i == 0 ==> c.handlers == old(c.handlers)
    {
      c.InvokeASAP(key, burst[i]);
      i := i + 1;
    }
    ghost var pending := c.handlers;
    c.SetBusy(false);
    DrainRunsPendingOnce(pending, c.log[|old(c.log)|..], key);
    forall k | k != key && k in old(c.handlers)
      ensures HandlersFor(c.log[|old(c.log)|..], k) == [old(c.handlers)[k]]
    {
      DrainRunsPendingOnce(pending, c.log[|old(c.log)|..], k);
    }
  }
}
