/**
 * The page-side publish/subscribe registry (core/EventEmitter.js): event name
 * to the list of callbacks registered for it. Callbacks are compared by
 * identity (`!==`), hence `Cb(==)`; what a callback does is not modelled, so
 * `emit` returns the calls it makes, in order.
 */
module EventEmitter {

  /** The callbacks registered under `name`; a missing list counts as none. */
  function Listeners<Cb>(events: map<string, seq<Cb>>, name: string): seq<Cb>
  {
    if name in events then events[name] else []
  }

  /** `list.filter(cb => cb !== callback)`. */
  function Without<Cb(==)>(list: seq<Cb>, callback: Cb): (r: seq<Cb>)
    ensures callback !in r && |r| <= |list|
    ensures forall x :: x in r ==> x in list
    ensures forall x :: x in list && x != callback ==> multiset(r)[x] == multiset(list)[x]
  {
    if list == [] then []
    else
      assert list == [list[0]] + list[1..];
      (if list[0] == callback then [] else [list[0]]) + Without(list[1..], callback)
  }

  /** Filtering distributes over concatenation: the kept callbacks stay in their order. */
  lemma {:induction false} WithoutAppend<Cb>(a: seq<Cb>, b: seq<Cb>, callback: Cb)
    ensures Without(a + b, callback) == Without(a, callback) + Without(b, callback)
  {
    if a == [] {
      assert a + b == b;
    } else {
      var head := if a[0] == callback then [] else [a[0]];
      assert (a + b)[0] == a[0];
      assert (a + b)[1..] == a[1..] + b;
      assert Without(a + b, callback) == head + Without(a[1..] + b, callback);
      WithoutAppend(a[1..], b, callback);
      assert Without(a, callback) == head + Without(a[1..], callback);
    }
  }

  /** A list without the callback is left exactly as it is. */
  lemma {:induction false} WithoutAbsent<Cb>(list: seq<Cb>, callback: Cb)
    requires callback !in list
    ensures Without(list, callback) == list
  {
    if list != [] {
      WithoutAbsent(list[1..], callback);
    }
  }

  /** on(name, callback): append, creating the list if absent; other names untouched. */
  function Register<Cb>(events: map<string, seq<Cb>>, name: string, callback: Cb): (r: map<string, seq<Cb>>)
    ensures name in r && Listeners(r, name) == Listeners(events, name) + [callback]
    ensures forall n :: n != name ==> (n in r <==> n in events) && Listeners(r, n) == Listeners(events, n)
  {
    events[name := Listeners(events, name) + [callback]]
  }

  /** removeListener(name, callback): only a list that exists is rewritten. */
  function Unregister<Cb(==)>(events: map<string, seq<Cb>>, name: string, callback: Cb): (r: map<string, seq<Cb>>)
    ensures r.Keys == events.Keys
    ensures callback !in Listeners(r, name)
    ensures forall n :: n != name ==> Listeners(r, n) == Listeners(events, n)
    ensures name in events ==> r[name] == Without(events[name], callback)
    ensures name !in events ==> r == events
  {
    if name in events then events[name := Without(events[name], callback)] else events
  }

  /** Registering the same callback twice keeps both registrations. */
  lemma RegisterTwiceKeepsBoth<Cb>(events: map<string, seq<Cb>>, name: string, callback: Cb)
    ensures Listeners(Register(Register(events, name, callback), name, callback), name)
      == Listeners(events, name) + [callback, callback]
  {
  }

  /** removeListener drops every registration of the callback, the repeated ones included, and keeps the rest in order. */
  lemma UnregisterUndoesRegister<Cb>(events: map<string, seq<Cb>>, name: string, callback: Cb, other: Cb)
    requires other != callback
    ensures var added := Register(Register(Register(events, name, callback), name, other), name, callback);
      Listeners(Unregister(added, name, callback), name)
        == Without(Listeners(events, name), callback) + [other]
  {
    var l := Listeners(events, name);
    var tail := [callback, other, callback];
    assert Listeners(Register(Register(Register(events, name, callback), name, other), name, callback), name)
      == l + tail;
    WithoutAppend(l, tail, callback);
    assert tail[1..] == [other, callback] && tail[1..][1..] == [callback] && tail[1..][1..][1..] == [];
    assert Without([callback], callback) == [];
    assert Without([other, callback], callback) == [other];
    assert Without(tail, callback) == [other];
  }

  /** removeListener is idempotent, and a no-op for a name that has no list. */
  lemma UnregisterIdempotent<Cb>(events: map<string, seq<Cb>>, name: string, callback: Cb)
    ensures Unregister(Unregister(events, name, callback), name, callback) == Unregister(events, name, callback)
    ensures name !in events ==> Unregister(events, name, callback) == events
  {
    if name in events {
      WithoutAbsent(Without(events[name], callback), callback);
    }
  }

  /** The registry, a dictionary mutated in place. */
  class EventEmitter<Cb(==)> {
    var events: map<string, seq<Cb>>

    constructor ()
      ensures events == map[]
    {
      events := map[];
    }

    method On(name: string, callback: Cb)
      modifies this
      ensures events == Register(old(events), name, callback)
    {
      if name !in events {
        events := events[name := []];
      }
      events := events[name := events[name] + [callback]];
    }

    /** emit(name, data): each registered callback once per registration, in order, with `data`. */
    method Emit<D>(name: string, data: D) returns (calls: seq<(Cb, D)>)
      ensures |calls| == |Listeners(events, name)|
      ensures forall i :: 0 <= i < |calls| ==> calls[i] == (Listeners(events, name)[i], data)
    {
      calls := [];
      if name in events {
        var event := events[name];
        var i := 0;
        while i < |event|
          invariant 0 <= i <= |event|
          invariant |calls| == i
          invariant forall j :: 0 <= j < i ==> calls[j] == (event[j], data)
        {
          calls := calls + [(event[i], data)];
          i := i + 1;
        }
      }
    }

    method RemoveListener(name: string, callback: Cb)
      modifies this
      ensures events == Unregister(old(events), name, callback)
    {
      if name in events {
        events := events[name := Without(events[name], callback)];
      }
    }
  }
}
