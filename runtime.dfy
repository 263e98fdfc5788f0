/** The effectful reading of the combinators: the backing stores as mutable
    state, and `get`/`set` as methods that run the calls of a stash one after
    another, each waiting for the one before, and log every call into a
    backing store. Each method is proved to do exactly what the step
    functions `Stashes.Get` and `Stashes.Set` describe. */
module Runtime {
  import opened Values
  import opened Keys
  import opened Stores
  import Stashes

  class Backend {
    /** The backing stores, updated in place by every successful setter call. */
    var stores: Stores
    /** Every call made into a backing store so far, oldest first. */
    var trace: seq<Event>

    constructor (initial: Stores)
      ensures stores == initial && trace == []
    {
      stores := initial;
      trace := [];
    }

    /** Call the getter of store `id` with physical key `k`. */
    method CallGetter(id: StoreId, k: Value) returns (out: Outcome)
      modifies this
      ensures out == Read(old(stores), id, k).out
      ensures stores == old(stores) && trace == old(trace) + [GetCall(id, k)]
    {
      trace := trace + [GetCall(id, k)];
      var s := StoreOf(stores, id);
      if s.getFails {
        out := Rejected(id);
      } else {
        out := Resolved(if k in s.entries then s.entries[k] else Undefined);
      }
    }

    /** Call the setter of store `id` with physical key `k` and value `v`. */
    method CallSetter(id: StoreId, k: Value, v: Value) returns (out: Outcome)
      modifies this
      ensures var r := Write(old(stores), id, k, v);
              out == r.out && stores == r.stores && trace == old(trace) + r.calls
    {
      trace := trace + [SetCall(id, k, v)];
      var s := StoreOf(stores, id);
      if s.setFails {
        out := Rejected(id);
      } else {
        stores := stores[id := s.(entries := s.entries[k := v])];
        out := Resolved(s.ack);
      }
    }

    /** `s.set(key)(val)`: a combined stash awaits its primary's set before
        it starts its secondary's, and stops at the first rejection. */
    method Set(s: Stashes.Stash, key: Value, val: Value) returns (out: Outcome)
      modifies this
      ensures var r := Stashes.Set(s, key, val, old(stores));
              out == r.out && stores == r.stores && trace == old(trace) + r.calls
      decreases s
    {
      match s
      case Leaf(id, t, writable) =>
        if writable {
          out := CallSetter(id, Derive(t, key), val);
        } else {
          out := Resolved(Undefined);
        }
      case Combine(p, q) =>
        out := Set(p, key, val);
        if out.Resolved? {
          out := Set(q, key, val);
          if out.Resolved? {
            out := Resolved(Undefined);
          }
        }
    }

    /** `s.get(key)`. */
    method Get(s: Stashes.Stash, key: Value) returns (out: Outcome)
      modifies this
      ensures var r := Stashes.Get(s, key, old(stores));
              out == r.out && stores == r.stores && trace == old(trace) + r.calls
      decreases s, 2
    {
      match s
      case Leaf(id, t, _) =>
        out := CallGetter(id, Derive(t, key));
      case Combine(p, q) =>
        out := GetCombined(p, q, key);
    }

    /** `combine(p, q).get(key)`: ask `p`; a truthy answer or a rejection is
        the result, otherwise fall back to `q`. */
    method GetCombined(p: Stashes.Stash, q: Stashes.Stash, key: Value) returns (out: Outcome)
      modifies this
      ensures var r := Stashes.Get(Stashes.Combine(p, q), key, old(stores));
              out == r.out && stores == r.stores && trace == old(trace) + r.calls
      decreases Stashes.Combine(p, q), 1
    {
      out := Get(p, key);
      if out.Resolved? && !Truthy(out.value) {
        out := Fallback(p, q, key);
      }
    }

    /** The rest of `combine(p, q).get(key)` once `p` has missed: ask `q`; a
        falsy answer or a rejection is the result; a truthy answer `v` is
        promoted into `p` and then answered. */
    method Fallback(p: Stashes.Stash, q: Stashes.Stash, key: Value) returns (out: Outcome)
      modifies this
      ensures var r := Stashes.Fallback(p, q, key, old(stores));
              out == r.out && stores == r.stores && trace == old(trace) + r.calls
      decreases Stashes.Combine(p, q), 0
    {
      out := Get(q, key);
      if out.Resolved? && Truthy(out.value) {
        var found := out.value;
        out := Set(p, key, found);
        if out.Resolved? {
          out := Resolved(found);
        }
      }
    }
  }
}
