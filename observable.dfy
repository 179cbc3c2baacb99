/** Named events with ordered listener sets (src/helper/Observable.js).

    `observers` maps an event name to the set of functions registered under
    it; a JavaScript `Set` iterates in insertion order, so each set is a
    duplicate-free sequence here. Listeners are identified by value. */
module Observable {

  /** No listener occurs twice in `fs`. */
  predicate Distinct<L(==)>(fs: seq<L>)
  {
    forall i, j :: 0 <= i < j < |fs| ==> fs[i] != fs[j]
  }

  /** The listeners registered under `name`, in registration order. */
  function Listeners<E(==,!new), L(==)>(observers: map<E, seq<L>>, name: E): seq<L>
  {
    if name in observers then observers[name] else []
  }

  /** The observers after `on(name, fn)`: the set for `name` is created if it
      is missing, and `fn` is added to it unless it is already there. */
  function Register<E(==,!new), L(==)>(observers: map<E, seq<L>>, name: E, fn: L): (r: map<E, seq<L>>)
    ensures name in r && fn in r[name]
    ensures r.Keys == observers.Keys + {name}
    ensures Listeners(observers, name) <= r[name]
    ensures |r[name]| <= |Listeners(observers, name)| + 1
    ensures fn in Listeners(observers, name) ==> r == observers
    ensures fn !in Listeners(observers, name) ==> r[name] == Listeners(observers, name) + [fn]
    ensures forall other :: other != name ==> Listeners(r, other) == Listeners(observers, other)
  {
    var fs := Listeners(observers, name);
    observers[name := if fn in fs then fs else fs + [fn]]
  }

  /** Registering keeps every listener set duplicate-free. */
  lemma RegisterKeepsDistinct<E(!new), L>(observers: map<E, seq<L>>, name: E, fn: L)
    requires forall e :: e in observers ==> Distinct(observers[e])
    ensures var r := Register(observers, name, fn);
      forall e :: e in r ==> Distinct(r[e])
  {
    var fs := Listeners(observers, name);
    if fn !in fs {
      var gs := fs + [fn];
      forall i, j | 0 <= i < j < |gs|
        ensures gs[i] != gs[j]
      {
        if j == |fs| {
          assert gs[i] == fs[i];
        }
      }
    }
  }

  /** Registering the same listener twice has the effect of registering it
      once. */
  lemma RegisterIdempotent<E(!new), L>(observers: map<E, seq<L>>, name: E, fn: L)
    ensures Register(Register(observers, name, fn), name, fn) == Register(observers, name, fn)
  {
    var once := Register(observers, name, fn);
    assert fn in Listeners(once, name);
  }

  /** The event emitter. */
  class Observable<E(==,!new), L(==)> {
    var observers: map<E, seq<L>>

    ghost predicate Valid()
      reads this
    {
      forall e :: e in observers ==> Distinct(observers[e])
    }

    constructor ()
      ensures Valid() && observers == map[]
    {
      observers := map[];
    }

    /** `on(name, fn)`. Listener sets only ever grow: there is no way to
        unsubscribe. */
    method On(name: E, fn: L)
      requires Valid()
      modifies this
      ensures Valid()
      ensures observers == Register(old(observers), name, fn)
    {
      RegisterKeepsDistinct(observers, name, fn);
      if name !in observers {
        observers := observers[name := []];
      }
      if fn !in observers[name] {
        observers := observers[name := observers[name] + [fn]];
      }
    }

    /** `emit(name, value)`: the calls it makes, in order. Every listener
        registered under `name` is called once with `value`, in registration
        order; a name with no listeners calls nothing; no listener of another
        name is called. */
    method Emit<V>(name: E, value: V) returns (calls: seq<(L, V)>)
      ensures |calls| == |Listeners(observers, name)|
      ensures forall i :: 0 <= i < |calls| ==> calls[i] == (Listeners(observers, name)[i], value)
    {
      calls := [];
      if name !in observers {
        return;
      }
      var fs := observers[name];
      var i := 0;
      while i < |fs|
        invariant 0 <= i <= |fs|
        invariant |calls| == i
        invariant forall k :: 0 <= k < i ==> calls[k] == (fs[k], value)
      {
        calls := calls + [(fs[i], value)];
        i := i + 1;
      }
    }
  }
}
