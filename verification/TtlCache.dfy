/** The shared cache: string keys, each entry live until its expiry. */
module TtlCache {
  import opened Text

  datatype Value = Digest(input: string) | Count(count: nat) | Flag

  datatype Entry = Entry(value: Value, expiry: real)

  type Store = map<string, Entry>

  /** cache.get: an entry answers while now < expiry. */
  function Lookup(store: Store, now: real, key: string): Option<Value> {
    if key in store && now < store[key].expiry then Some(store[key].value) else None
  }

  /** cache.get(key, 0) for a counter. */
  function CountAt(store: Store, now: real, key: string): nat {
    match Lookup(store, now, key)
    case Some(Count(n)) => n
    case _ => 0
  }

  class Cache {
    var now: real
    var store: Store

    constructor (start: real)
      ensures now == start && store == map[]
    {
      now, store := start, map[];
    }

    method Get(key: string) returns (v: Option<Value>)
      ensures v == Lookup(store, now, key)
    {
      if key in store && now < store[key].expiry {
        return Some(store[key].value);
      }
      return None;
    }

    method GetCount(key: string) returns (n: nat)
      ensures n == CountAt(store, now, key)
    {
      var v := Get(key);
      n := if v.Some? && v.value.Count? then v.value.count else 0;
    }

    method Set(key: string, value: Value, timeout: real)
      modifies this`store
      ensures store == old(store)[key := Entry(value, now + timeout)]
    {
      store := store[key := Entry(value, now + timeout)];
    }

    method Delete(key: string)
      modifies this`store
      ensures store == old(store) - {key}
    {
      store := store - {key};
    }

    /** Adds one to a live counter and leaves its expiry alone; false stands for the ValueError on a missing key. */
    method Incr(key: string) returns (ok: bool)
      modifies this`store
      ensures ok <==> exists n :: old(Lookup(store, now, key)) == Some(Count(n))
      ensures ok ==> store == old(store)[key := Entry(Count(old(CountAt(store, now, key)) + 1), old(store)[key].expiry)]
      ensures !ok ==> store == old(store)
    {
      var v := Get(key);
      ok := v.Some? && v.value.Count?;
      if ok {
        assert v == Some(Count(v.value.count));
        store := store[key := Entry(Count(v.value.count + 1), store[key].expiry)];
      }
    }

    method Wait(dt: real)
      requires dt >= 0.0
      modifies this`now
      ensures now == old(now) + dt
    {
      now := now + dt;
    }
  }
}
