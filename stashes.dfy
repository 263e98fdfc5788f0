/** The stash algebra: leaf stashes over backing stores (`stash`,
    `namedStash`), the fallback-and-promote operator (`combine`) and the
    left fold of it over a chain (`merge`). `Get` and `Set` give the
    behaviour of every stash as a step over the backing stores. */
module Stashes {
  import opened Values
  import opened Keys
  import opened Stores

  /** A stash: a leaf over one backing store (its key transform, and whether
      it has a real setter or `noSet`), or `combine(primary, secondary)`. */
  datatype Stash =
    | Leaf(store: StoreId, transform: KeyTransform, writable: bool)
    | Combine(primary: Stash, secondary: Stash)

  /** `stash(getter)(setter)`: the getter and setter unchanged; without a
      setter (`writable` false) the setter is `noSet`. */
  function PlainStash(store: StoreId, writable: bool): Stash {
    Leaf(store, Identity, writable)
  }

  /** `namedStash(name)(cache)(getter)(setter)`: getter and setter see the
      key as `name + ":" + hash(key)`. */
  function NamedStash(name: string, hash: Hash, store: StoreId): Stash {
    Leaf(store, Named(name, hash), true)
  }

  /** The backing stores a stash reaches. */
  function StoreIds(s: Stash): set<StoreId> {
    match s
    case Leaf(id, _, _) => {id}
    case Combine(p, q) => StoreIds(p) + StoreIds(q)
  }

  /** `s.set(key)(val)`. A leaf with `noSet` resolves at once and calls
      nothing; a leaf with a setter calls it with the derived key; a combined
      stash sets its primary, then (only if that succeeded) its secondary,
      and resolves to `undefined`. */
  function Set(s: Stash, key: Value, val: Value, st: Stores): (r: Step)
    ensures r.out.Rejected? ==> r.out.failed in StoreIds(s)
  {
    match s
    case Leaf(id, t, writable) =>
      if writable then Write(st, id, Derive(t, key), val) else Step(Resolved(Undefined), st, [])
    case Combine(p, q) =>
      var r1 := Set(p, key, val, st);
      if r1.out.Rejected? then r1
      else
        var r2 := Set(q, key, val, r1.stores);
        Step(if r2.out.Rejected? then r2.out else Resolved(Undefined), r2.stores, r1.calls + r2.calls)
  }

  /** `s.get(key)`. A leaf calls its getter with the derived key. A combined
      stash asks its primary; a truthy answer (or a rejection) is the result.
      Otherwise it asks its secondary; a falsy answer (or a rejection) is the
      result. A truthy answer `v` is written into the primary with
      `primary.set(key)(v)`, and once that write has settled the result is
      `v`, or the write's rejection. */
  function Get(s: Stash, key: Value, st: Stores): (r: Step)
    ensures r.out.Resolved? && !Truthy(r.out.value) ==> r.stores == st
    ensures r.out.Rejected? ==> r.out.failed in StoreIds(s)
    decreases s, 1
  {
    match s
    case Leaf(id, t, _) => Read(st, id, Derive(t, key))
    case Combine(p, q) =>
      var r1 := Get(p, key, st);
      if r1.out.Rejected? || Truthy(r1.out.value) then r1
      else
        var r2 := Fallback(p, q, key, r1.stores);
        Step(r2.out, r2.stores, r1.calls + r2.calls)
  }

  /** The rest of `combine(p, q).get(key)` once `p` has missed: ask `q`; a
      falsy answer or a rejection is the result; a truthy answer is set into
      `p`, and answered once that set resolves. */
  function Fallback(p: Stash, q: Stash, key: Value, st: Stores): (r: Step)
    ensures r.out.Resolved? && !Truthy(r.out.value) ==> r.stores == st
    ensures r.out.Rejected? ==> r.out.failed in StoreIds(p) + StoreIds(q)
    decreases Combine(p, q), 0
  {
    var r2 := Get(q, key, st);
    if r2.out.Rejected? || !Truthy(r2.out.value) then r2
    else
      var r3 := Set(p, key, r2.out.value, r2.stores);
      Step(if r3.out.Rejected? then r3.out else r2.out, r3.stores, r2.calls + r3.calls)
  }

  /** `set` only calls setters, each with the unchanged value. */
  lemma {:induction false} SetWritesOnlyItsValue(s: Stash, key: Value, val: Value, st: Stores)
    ensures AllSetsOf(Set(s, key, val, st).calls, val)
  {
    match s
    case Leaf(_, _, _) =>
    case Combine(p, q) =>
      SetWritesOnlyItsValue(p, key, val, st);
      var r1 := Set(p, key, val, st);
      if r1.out.Resolved? {
        SetWritesOnlyItsValue(q, key, val, r1.stores);
      }
  }

  /** A `get` that misses calls no setter at all, and a `get` that hits
      writes nothing but the value it returns. */
  lemma {:induction false} GetWritesOnlyWhatItReturns(s: Stash, key: Value, st: Stores)
    ensures var r := Get(s, key, st);
            (r.out.Resolved? && !Truthy(r.out.value) ==> NoSets(r.calls)) &&
            (r.out.Resolved? && Truthy(r.out.value) ==> SetsOnly(r.calls, r.out.value))
  {
    match s
    case Leaf(_, _, _) =>
    case Combine(p, q) =>
      GetWritesOnlyWhatItReturns(p, key, st);
      var r1 := Get(p, key, st);
      if r1.out.Resolved? && !Truthy(r1.out.value) {
        GetWritesOnlyWhatItReturns(q, key, r1.stores);
        var r2 := Get(q, key, r1.stores);
        if r2.out.Resolved? && Truthy(r2.out.value) {
          SetWritesOnlyItsValue(p, key, r2.out.value, r2.stores);
        }
      }
  }

  /** `set` changes no backing store outside the stash's own. */
  lemma {:induction false} SetTouchesOnlyItsStores(s: Stash, key: Value, val: Value, st: Stores)
    ensures AgreeOutside(st, Set(s, key, val, st).stores, StoreIds(s))
  {
    match s
    case Leaf(_, _, _) =>
    case Combine(p, q) =>
      SetTouchesOnlyItsStores(p, key, val, st);
      var r1 := Set(p, key, val, st);
      if r1.out.Resolved? {
        SetTouchesOnlyItsStores(q, key, val, r1.stores);
      }
  }

  /** `get` changes no backing store outside the stash's own. */
  lemma {:induction false} GetTouchesOnlyItsStores(s: Stash, key: Value, st: Stores)
    ensures AgreeOutside(st, Get(s, key, st).stores, StoreIds(s))
  {
    match s
    case Leaf(_, _, _) =>
    case Combine(p, q) =>
      GetTouchesOnlyItsStores(p, key, st);
      var r1 := Get(p, key, st);
      if r1.out.Resolved? && !Truthy(r1.out.value) {
        GetTouchesOnlyItsStores(q, key, r1.stores);
        var r2 := Get(q, key, r1.stores);
        if r2.out.Resolved? && Truthy(r2.out.value) {
          SetTouchesOnlyItsStores(p, key, r2.out.value, r2.stores);
        }
      }
  }

  /** `Array.prototype.reduce` without an initial value: start from the
      first stash and combine each following one onto the accumulator. */
  function Reduce(acc: Stash, rest: seq<Stash>): Stash
    decreases |rest|
  {
    if rest == [] then acc else Reduce(Combine(acc, rest[0]), rest[1..])
  }

  /** `merge(...caches)`; `None` where `reduce` of no stashes throws. */
  function Merge(ss: seq<Stash>): (r: Option<Stash>)
    ensures r.Some? <==> ss != []
  {
    if ss == [] then None else Some(Reduce(ss[0], ss[1..]))
  }

  /** Folding one more stash onto a reduction nests it on the outside. */
  lemma {:induction false} ReduceSnoc(acc: Stash, rest: seq<Stash>, x: Stash)
    ensures Reduce(acc, rest + [x]) == Combine(Reduce(acc, rest), x)
    decreases |rest|
  {
    if rest == [] {
      assert rest + [x] == [x];
    } else {
      assert (rest + [x])[1..] == rest[1..] + [x];
      ReduceSnoc(Combine(acc, rest[0]), rest[1..], x);
    }
  }

  /** `merge(S)` is `S`, and `merge(S1, ..., Sn)` is
      `combine(merge(S1, ..., S(n-1)), Sn)`: the chain nests to the left. */
  lemma MergeIsLeftNested(ss: seq<Stash>)
    requires ss != []
    ensures |ss| == 1 ==> Merge(ss) == Some(ss[0])
    ensures |ss| >= 2 ==> Merge(ss) == Some(Combine(Merge(ss[..|ss| - 1]).value, ss[|ss| - 1]))
  {
    if |ss| >= 2 {
      var init := ss[..|ss| - 1];
      assert ss[1..] == init[1..] + [ss[|ss| - 1]];
      ReduceSnoc(ss[0], init[1..], ss[|ss| - 1]);
    }
  }

  /** `merge(S1, S2, S3)` is `combine(combine(S1, S2), S3)`. */
  lemma MergeOfThree(s1: Stash, s2: Stash, s3: Stash)
    ensures Merge([s1, s2, s3]) == Some(Combine(Combine(s1, s2), s3))
  {
    MergeIsLeftNested([s1, s2, s3]);
    assert [s1, s2, s3][..2] == [s1, s2];
    MergeIsLeftNested([s1, s2]);
  }

  /** `combine.get`: a truthy answer from the primary is the result. The
      combined get is exactly the primary's own get: the secondary is not
      asked and `combine` adds no write (a leaf primary writes nothing; a
      combined primary may promote inside itself). */
  lemma CombineGetPrimaryHit(p: Stash, q: Stash, key: Value, st: Stores)
    requires Get(p, key, st).out.Resolved? && Truthy(Get(p, key, st).out.value)
    ensures Get(Combine(p, q), key, st) == Get(p, key, st)
  {
  }

  /** `combine.get`: a rejection from the primary is the result; the
      secondary is not asked and `combine` adds no write. */
  lemma CombineGetPrimaryRejects(p: Stash, q: Stash, key: Value, st: Stores)
    requires Get(p, key, st).out.Rejected?
    ensures Get(Combine(p, q), key, st) == Get(p, key, st)
  {
  }

  /** `combine.get`: after a primary miss, a rejection from the secondary is
      the result, and no promotion is attempted. */
  lemma CombineGetSecondaryRejects(p: Stash, q: Stash, key: Value, st: Stores)
    requires Get(p, key, st).out.Resolved? && !Truthy(Get(p, key, st).out.value)
    requires Get(q, key, st).out.Rejected?
    ensures var r1, r2 := Get(p, key, st), Get(q, key, st);
            Get(Combine(p, q), key, st) == Step(r2.out, r2.stores, r1.calls + r2.calls)
  {
  }

  /** `combine.get` over two leaves: the primary misses, the secondary
      answers a truthy `v`; the primary's setter is called once, with the
      primary's derived key and `v`, after both getters; the result is `v`,
      or the rejection of that write. */
  lemma CombineGetPromotes(p: Stash, q: Stash, key: Value, st: Stores)
    requires p.Leaf? && p.writable && q.Leaf?
    requires Get(p, key, st).out.Resolved? && !Truthy(Get(p, key, st).out.value)
    requires Get(q, key, st).out.Resolved? && Truthy(Get(q, key, st).out.value)
    ensures var v := Get(q, key, st).out.value;
            var r := Get(Combine(p, q), key, st);
            r.calls == [GetCall(p.store, Derive(p.transform, key)), GetCall(q.store, Derive(q.transform, key)),
                        SetCall(p.store, Derive(p.transform, key), v)] &&
            r.out == (if StoreOf(st, p.store).setFails then Rejected(p.store) else Resolved(v)) &&
            r.stores == (if StoreOf(st, p.store).setFails then st else Put(st, p.store, Derive(p.transform, key), v))
  {
  }

  /** `combine.get` over any two stashes: the primary misses, the secondary
      answers a truthy `v`; `v` is then set into the primary, on the stores
      as the secondary left them, and the result is `v`, or that set's
      rejection. */
  lemma CombineGetFallsBack(p: Stash, q: Stash, key: Value, st: Stores)
    requires Get(p, key, st).out.Resolved? && !Truthy(Get(p, key, st).out.value)
    requires Get(q, key, st).out.Resolved? && Truthy(Get(q, key, st).out.value)
    ensures var r1, r2 := Get(p, key, st), Get(q, key, st);
            var w := Set(p, key, r2.out.value, r2.stores);
            Get(Combine(p, q), key, st) ==
              Step(if w.out.Rejected? then w.out else r2.out, w.stores, r1.calls + r2.calls + w.calls)
  {
    var r1, r2 := Get(p, key, st), Get(q, key, st);
    var w := Set(p, key, r2.out.value, r2.stores);
    assert r1.stores == st;
    assert Fallback(p, q, key, st) == Step(if w.out.Rejected? then w.out else r2.out, w.stores, r2.calls + w.calls);
    assert r1.calls + (r2.calls + w.calls) == r1.calls + r2.calls + w.calls;
  }

  /** `combine.get`: when both answers are falsy the result is the
      secondary's own falsy answer, and nothing is written. */
  lemma CombineGetBothMiss(p: Stash, q: Stash, key: Value, st: Stores)
    requires Get(p, key, st).out.Resolved? && !Truthy(Get(p, key, st).out.value)
    requires Get(q, key, st).out.Resolved? && !Truthy(Get(q, key, st).out.value)
    ensures var r := Get(Combine(p, q), key, st);
            r.out == Get(q, key, st).out && r.stores == st && NoSets(r.calls)
  {
    GetWritesOnlyWhatItReturns(Combine(p, q), key, st);
  }

  /** `combine.set`: the primary is written first; if that fails the
      secondary is never called and the failure is the result; otherwise
      the secondary is written and the result is its failure or `undefined`. */
  lemma CombineSetInOrder(p: Stash, q: Stash, key: Value, val: Value, st: Stores)
    ensures var r1 := Set(p, key, val, st);
            var r := Set(Combine(p, q), key, val, st);
            if r1.out.Rejected? then r == r1
            else
              var r2 := Set(q, key, val, r1.stores);
              r.calls == r1.calls + r2.calls && r.stores == r2.stores &&
              r.out == (if r2.out.Rejected? then r2.out else Resolved(Undefined))
  {
  }

  /** `stash(getter)(setter)`: `get` is the getter itself, called with the
      caller's key unchanged; `set` is the setter itself with the key and
      value unchanged; the default `noSet` resolves to `undefined` without
      calling anything. */
  lemma PlainStashPassesKeyThrough(id: StoreId, writable: bool, key: Value, val: Value, st: Stores)
    ensures Get(PlainStash(id, writable), key, st) == Read(st, id, key)
    ensures writable ==> Set(PlainStash(id, writable), key, val, st) == Write(st, id, key, val)
    ensures !writable ==> Set(PlainStash(id, writable), key, val, st) == Step(Resolved(Undefined), st, [])
  {
  }

  /** `namedStash(name)`: `get` and `set` are the getter and setter
      themselves, each called with exactly `name + ":" + hash(key)`, the
      setter with the value unchanged. */
  lemma NamedStashDerivesKey(name: string, hash: Hash, id: StoreId, key: Value, val: Value, st: Stores)
    ensures Get(NamedStash(name, hash, id), key, st) == Read(st, id, Str(name + ":" + hash(key)))
    ensures Set(NamedStash(name, hash, id), key, val, st) == Write(st, id, Str(name + ":" + hash(key)), val)
  {
  }

  /** Truthiness decides a hit: a primary leaf that holds any falsy value
      (`0`, `""`, `false`, `null`) is treated as missing; the secondary's
      truthy value is returned and written over it. */
  lemma StoredFalsyValueIsAMiss(a: StoreId, b: StoreId, key: Value, stored: Value, v: Value)
    requires a != b && !Truthy(stored) && Truthy(v)
    ensures var st := map[a := EmptyStore.(entries := map[key := stored]),
                          b := EmptyStore.(entries := map[key := v])];
            var r := Get(Combine(PlainStash(a, true), PlainStash(b, true)), key, st);
            r.out == Resolved(v) && Lookup(r.stores, a, key) == v
  {
    var st := map[a := EmptyStore.(entries := map[key := stored]),
                  b := EmptyStore.(entries := map[key := v])];
    var r3 := Set(PlainStash(a, true), key, v, st);
    assert Fallback(PlainStash(a, true), PlainStash(b, true), key, st) ==
      Step(Resolved(v), r3.stores, [GetCall(b, key)] + r3.calls);
  }
}
