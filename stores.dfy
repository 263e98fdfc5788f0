/** The backing stores behind the leaf stashes, the calls made into them, and
    the result of one stash operation. */
module Stores {
  import opened Values

  type StoreId = nat

  /** One backing store: its entries, whether its getter or setter rejects,
      and the value its setter resolves with on success. */
  datatype Store = Store(entries: map<Value, Value>, getFails: bool, setFails: bool, ack: Value)

  type Stores = map<StoreId, Store>

  /** A store nobody has written to: no entries, healthy getter and setter. */
  const EmptyStore := Store(map[], false, false, Undefined)

  /** The store behind `id`; an id never written to names an empty store. */
  function StoreOf(st: Stores, id: StoreId): Store {
    if id in st then st[id] else EmptyStore
  }

  /** What the store under `id` holds for `k`; a missing key reads as
      `undefined`, as an in-process cache reports it. */
  function Lookup(st: Stores, id: StoreId, k: Value): Value {
    var entries := StoreOf(st, id).entries;
    if k in entries then entries[k] else Undefined
  }

  /** `st` with `v` stored under `k` in store `id`, nothing else changed. */
  function Put(st: Stores, id: StoreId, k: Value, v: Value): Stores {
    var s := StoreOf(st, id);
    st[id := s.(entries := s.entries[k := v])]
  }

  /** A write changes what one store holds for one key and nothing else. */
  lemma LookupAfterPut(st: Stores, id: StoreId, k: Value, v: Value, id': StoreId, k': Value)
    ensures Lookup(Put(st, id, k, v), id', k') == if id == id' && k == k' then v else Lookup(st, id', k')
  {
  }

  /** A call into a backing getter or setter, with the physical key. */
  datatype Event =
    | GetCall(store: StoreId, key: Value)
    | SetCall(store: StoreId, key: Value, val: Value)

  /** How the promise returned by `get` or `set` settles. */
  datatype Outcome = Resolved(value: Value) | Rejected(failed: StoreId)

  /** The result of one `get` or `set`: how it settled, the stores after it,
      and the calls it made into backing stores, in order. */
  datatype Step = Step(out: Outcome, stores: Stores, calls: seq<Event>)

  /** A backing getter called with physical key `k`. */
  function Read(st: Stores, id: StoreId, k: Value): Step {
    Step(if StoreOf(st, id).getFails then Rejected(id) else Resolved(Lookup(st, id, k)),
         st, [GetCall(id, k)])
  }

  /** A backing setter called with physical key `k` and value `v`. */
  function Write(st: Stores, id: StoreId, k: Value, v: Value): Step {
    if StoreOf(st, id).setFails then Step(Rejected(id), st, [SetCall(id, k, v)])
    else Step(Resolved(StoreOf(st, id).ack), Put(st, id, k, v), [SetCall(id, k, v)])
  }

  /** Every store outside `ids` is the same in `a` and `b`. */
  ghost predicate AgreeOutside(a: Stores, b: Stores, ids: set<StoreId>) {
    forall id :: id !in ids ==> StoreOf(a, id) == StoreOf(b, id)
  }

  /** No call in `calls` is a set. */
  predicate NoSets(calls: seq<Event>) {
    forall i :: 0 <= i < |calls| ==> calls[i].GetCall?
  }

  /** Every set in `calls` writes `v`. */
  predicate SetsOnly(calls: seq<Event>, v: Value) {
    forall i :: 0 <= i < |calls| ==> calls[i].SetCall? ==> calls[i].val == v
  }

  /** Every call in `calls` is a set of `v`. */
  predicate AllSetsOf(calls: seq<Event>, v: Value) {
    forall i :: 0 <= i < |calls| ==> calls[i].SetCall? && calls[i].val == v
  }

  /** How many getter calls in `calls` reach store `id`. */
  function CountGets(calls: seq<Event>, id: StoreId): nat {
    if calls == [] then 0
    else CountGets(calls[..|calls| - 1], id) + (if calls[|calls| - 1].GetCall? && calls[|calls| - 1].store == id then 1 else 0)
  }

  /** How many setter calls in `calls` reach store `id`. */
  function CountSets(calls: seq<Event>, id: StoreId): nat {
    if calls == [] then 0
    else CountSets(calls[..|calls| - 1], id) + (if calls[|calls| - 1].SetCall? && calls[|calls| - 1].store == id then 1 else 0)
  }

  /** A single call counts for its own store only. */
  lemma CountOne(e: Event, id: StoreId)
    ensures CountGets([e], id) == if e.GetCall? && e.store == id then 1 else 0
    ensures CountSets([e], id) == if e.SetCall? && e.store == id then 1 else 0
  {
    assert [e][..0] == [];
  }

  /** Counting distributes over concatenation of call sequences. */
  lemma {:induction false} CountsAdd(a: seq<Event>, b: seq<Event>, id: StoreId)
    ensures CountGets(a + b, id) == CountGets(a, id) + CountGets(b, id)
    ensures CountSets(a + b, id) == CountSets(a, id) + CountSets(b, id)
    decreases |b|
  {
    if b == [] {
      assert a + b == a;
    } else {
      var b' := b[..|b| - 1];
      CountsAdd(a, b', id);
      assert (a + b)[..|a + b| - 1] == a + b';
    }
  }
}
