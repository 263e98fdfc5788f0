/** A merged chain of leaf stashes `merge(S1, ..., Sn)`: which tiers a `get`
    probes, which it writes, in what order, and what a `set` does to every
    tier. */
module Chains {
  import opened Values
  import opened Keys
  import opened Stores
  import opened Stashes

  /** Every tier of the chain is a stash over one backing store. */
  predicate Tiers(ss: seq<Stash>) {
    forall i :: 0 <= i < |ss| ==> ss[i].Leaf?
  }

  /** No two tiers share a backing store. */
  predicate DistinctStores(ss: seq<Stash>)
    requires Tiers(ss)
  {
    forall i, j :: 0 <= i < j < |ss| ==> ss[i].store != ss[j].store
  }

  /** The key tier `t` hands to its backing store for the caller's `key`:
      `Derive` applied to the tier's own transform, so that the chain
      statements can speak of tiers rather than of their transforms. */
  function PhysicalKey(t: Stash, key: Value): Value
    requires t.Leaf?
  {
    Derive(t.transform, key)
  }

  /** Asked alone, the stash answers with a falsy value. */
  predicate Misses(t: Stash, key: Value, st: Stores) {
    var o := Get(t, key, st).out;
    o.Resolved? && !Truthy(o.value)
  }

  /** Asked alone, the stash answers with a truthy value. */
  predicate Hits(t: Stash, key: Value, st: Stores) {
    var o := Get(t, key, st).out;
    o.Resolved? && Truthy(o.value)
  }

  /** The tier has a real setter whose backing store rejects writes. */
  predicate FailsSet(t: Stash, st: Stores)
    requires t.Leaf?
  {
    t.writable && StoreOf(st, t.store).setFails
  }

  /** One getter call per tier, front to back. */
  function Probes(ts: seq<Stash>, key: Value): seq<Event>
    requires Tiers(ts)
  {
    if ts == [] then []
    else
      var t := ts[|ts| - 1];
      Probes(ts[..|ts| - 1], key) + [GetCall(t.store, PhysicalKey(t, key))]
  }

  /** One setter call of `v` per tier with a real setter, front to back. */
  function Writes(ts: seq<Stash>, key: Value, v: Value): seq<Event>
    requires Tiers(ts)
  {
    if ts == [] then []
    else
      var t := ts[|ts| - 1];
      Writes(ts[..|ts| - 1], key, v) + (if t.writable then [SetCall(t.store, PhysicalKey(t, key), v)] else [])
  }

  /** The stores after `v` is written under each writable tier's key. */
  function PutAll(st: Stores, ts: seq<Stash>, key: Value, v: Value): Stores
    requires Tiers(ts)
  {
    if ts == [] then st
    else
      var t := ts[|ts| - 1];
      var before := PutAll(st, ts[..|ts| - 1], key, v);
      if t.writable then Put(before, t.store, PhysicalKey(t, key), v) else before
  }

  /** Writing values never changes whether a store's getter or setter fails. */
  lemma {:induction false} PutAllKeepsFailures(st: Stores, ts: seq<Stash>, key: Value, v: Value, id: StoreId)
    requires Tiers(ts)
    ensures StoreOf(PutAll(st, ts, key, v), id).setFails == StoreOf(st, id).setFails
    ensures StoreOf(PutAll(st, ts, key, v), id).getFails == StoreOf(st, id).getFails
  {
    if ts != [] {
      PutAllKeepsFailures(st, ts[..|ts| - 1], key, v, id);
    }
  }

  /** After `PutAll`, every writable tier holds `v` under its own key. */
  lemma {:induction false} PutAllHolds(st: Stores, ts: seq<Stash>, key: Value, v: Value, i: nat)
    requires Tiers(ts) && i < |ts| && ts[i].writable
    ensures Lookup(PutAll(st, ts, key, v), ts[i].store, PhysicalKey(ts[i], key)) == v
  {
    var init, t := ts[..|ts| - 1], ts[|ts| - 1];
    var before := PutAll(st, init, key, v);
    if i < |ts| - 1 {
      assert init[i] == ts[i];
      PutAllHolds(st, init, key, v, i);
      if t.writable {
        LookupAfterPut(before, t.store, PhysicalKey(t, key), v, ts[i].store, PhysicalKey(ts[i], key));
      }
    } else {
      LookupAfterPut(before, t.store, PhysicalKey(t, key), v, t.store, PhysicalKey(t, key));
    }
  }

  /** A chain in which every tier misses: every tier's getter is called once,
      front to back; nothing is written; the result is the last tier's own
      falsy answer. */
  lemma {:induction false} MissEverywhere(ss: seq<Stash>, key: Value, st: Stores)
    requires ss != [] && Tiers(ss)
    requires forall i :: 0 <= i < |ss| ==> Misses(ss[i], key, st)
    ensures Get(Merge(ss).value, key, st) == Step(Get(ss[|ss| - 1], key, st).out, st, Probes(ss, key))
  {
    MergeIsLeftNested(ss);
    if |ss| >= 2 {
      var init := ss[..|ss| - 1];
      MissEverywhere(init, key, st);
    }
  }

  /** A chain whose first hit is tier `k`: tiers 0..k are probed in order and
      no later tier is touched. For `k = 0` the hit is the result; otherwise
      the hit `v` is then set into `merge(S1, ..., Sk)` (the nested primary)
      and the result is `v`, or that set's rejection. */
  lemma {:induction false} FirstHitAt(ss: seq<Stash>, key: Value, st: Stores, k: nat)
    requires Tiers(ss) && k < |ss|
    requires forall i :: 0 <= i < k ==> Misses(ss[i], key, st)
    requires Hits(ss[k], key, st)
    ensures var v := Get(ss[k], key, st).out.value;
            var probed := Probes(ss[..k + 1], key);
            Get(Merge(ss).value, key, st) ==
              if k == 0 then Step(Resolved(v), st, probed)
              else
                var w := Set(Merge(ss[..k]).value, key, v, st);
                Step(if w.out.Rejected? then w.out else Resolved(v), w.stores, probed + w.calls)
  {
    if k < |ss| - 1 {
      MergeIsLeftNested(ss);
      var init := ss[..|ss| - 1];
      assert init[..k + 1] == ss[..k + 1] && init[..k] == ss[..k];
      FirstHitAt(init, key, st, k);
    } else if k > 0 {
      assert ss[..k + 1] == ss;
      HitAtLastTier(ss, key, st);
    } else {
      MergeIsLeftNested(ss);
      assert ss[..k + 1] == ss;
    }
  }

  /** `FirstHitAt` when the hit is in the last of two or more tiers: the
      whole front misses, so the answer comes from the fallback. */
  lemma HitAtLastTier(ss: seq<Stash>, key: Value, st: Stores)
    requires |ss| >= 2 && Tiers(ss)
    requires forall i :: 0 <= i < |ss| - 1 ==> Misses(ss[i], key, st)
    requires Hits(ss[|ss| - 1], key, st)
    ensures var last := Get(ss[|ss| - 1], key, st);
            var w := Set(Merge(ss[..|ss| - 1]).value, key, last.out.value, st);
            Get(Merge(ss).value, key, st) ==
              Step(if w.out.Rejected? then w.out else last.out, w.stores, Probes(ss, key) + w.calls)
  {
    MergeIsLeftNested(ss);
    var init, t := ss[..|ss| - 1], ss[|ss| - 1];
    MissEverywhere(init, key, st);
    assert Misses(init[|init| - 1], key, st);
    CombineGetFallsBack(Merge(init).value, t, key, st);
    assert Get(t, key, st).calls == [GetCall(t.store, PhysicalKey(t, key))];
  }

  /** `set` on a chain whose setters all succeed: every tier with a setter
      is written with the unchanged value, front to back, and the stores
      end up with `v` in each of those tiers. A chain of two or more
      resolves to `undefined`. */
  lemma {:induction false} WriteEverywhere(ss: seq<Stash>, key: Value, v: Value, st: Stores)
    requires ss != [] && Tiers(ss)
    requires forall i :: 0 <= i < |ss| ==> !FailsSet(ss[i], st)
    ensures var r := Set(Merge(ss).value, key, v, st);
            r.out.Resolved? && r.stores == PutAll(st, ss, key, v) && r.calls == Writes(ss, key, v) &&
            (|ss| >= 2 ==> r.out == Resolved(Undefined))
  {
    MergeIsLeftNested(ss);
    var init, last := ss[..|ss| - 1], ss[|ss| - 1];
    if |ss| >= 2 {
      WriteEverywhere(init, key, v, st);
      var r1 := Set(Merge(init).value, key, v, st);
      PutAllKeepsFailures(st, init, key, v, last.store);
      var r2 := Set(last, key, v, r1.stores);
      assert r2.out.Resolved? && r2.stores == PutAll(st, ss, key, v);
      assert r2.calls == if last.writable then [SetCall(last.store, PhysicalKey(last, key), v)] else [];
      assert Set(Merge(ss).value, key, v, st) == Step(Resolved(Undefined), r2.stores, r1.calls + r2.calls);
    } else {
      assert init == [];
    }
  }

  /** `set` on a chain whose first failing setter is tier `j`: tiers before
      `j` are written in order, tier `j`'s setter is called and rejects, no
      later tier is called, and the rejection is the result. */
  lemma {:induction false} FailFast(ss: seq<Stash>, key: Value, v: Value, st: Stores, j: nat)
    requires Tiers(ss) && j < |ss|
    requires FailsSet(ss[j], st)
    requires forall i :: 0 <= i < j ==> !FailsSet(ss[i], st)
    ensures Set(Merge(ss).value, key, v, st) ==
            Step(Rejected(ss[j].store), PutAll(st, ss[..j], key, v), Writes(ss[..j + 1], key, v))
  {
    MergeIsLeftNested(ss);
    var init := ss[..|ss| - 1];
    if j < |ss| - 1 {
      assert init[..j] == ss[..j] && init[..j + 1] == ss[..j + 1];
      FailFast(init, key, v, st, j);
    } else if j > 0 {
      assert init == ss[..j];
      WriteEverywhere(init, key, v, st);
      PutAllKeepsFailures(st, init, key, v, ss[j].store);
      assert ss[..j + 1] == ss;
    } else {
      assert ss[..j] == [] && ss[..j + 1] == ss;
    }
  }

  /** The promotion fan-out of a merged chain: when tiers before `k` miss
      and their setters succeed, and tier `k` holds a truthy `v`, `get`
      resolves to `v` after calling the getters of tiers 0..k in order and
      then the setter of every writable tier before `k`, in order; those
      tiers end up holding `v` and every other store is unchanged. */
  lemma PromotesIntoEveryEarlierTier(ss: seq<Stash>, key: Value, st: Stores, k: nat)
    requires Tiers(ss) && k < |ss|
    requires forall i :: 0 <= i < k ==> Misses(ss[i], key, st) && !FailsSet(ss[i], st)
    requires Hits(ss[k], key, st)
    ensures var v := Get(ss[k], key, st).out.value;
            Get(Merge(ss).value, key, st) ==
              Step(Resolved(v), PutAll(st, ss[..k], key, v), Probes(ss[..k + 1], key) + Writes(ss[..k], key, v))
  {
    var v := Get(ss[k], key, st).out.value;
    FirstHitAt(ss, key, st, k);
    if k > 0 {
      WriteEverywhere(ss[..k], key, v, st);
    } else {
      assert Probes(ss[..k + 1], key) + Writes(ss[..k], key, v) == Probes(ss[..k + 1], key);
    }
  }

  /** A promotion write that fails makes the `get` fail: tiers before `k`
      miss, tier `k` hits, and tier `j < k` is the first whose setter
      rejects; the result is that rejection, tiers before `j` have been
      written, and no tier after `k` is touched. */
  lemma PromotionFailureFailsGet(ss: seq<Stash>, key: Value, st: Stores, k: nat, j: nat)
    requires Tiers(ss) && j < k < |ss|
    requires forall i :: 0 <= i < k ==> Misses(ss[i], key, st)
    requires Hits(ss[k], key, st)
    requires FailsSet(ss[j], st)
    requires forall i :: 0 <= i < j ==> !FailsSet(ss[i], st)
    ensures var v := Get(ss[k], key, st).out.value;
            Get(Merge(ss).value, key, st) ==
              Step(Rejected(ss[j].store), PutAll(st, ss[..j], key, v), Probes(ss[..k + 1], key) + Writes(ss[..j + 1], key, v))
  {
    var v := Get(ss[k], key, st).out.value;
    FirstHitAt(ss, key, st, k);
    var pre := ss[..k];
    assert pre[..j] == ss[..j] && pre[..j + 1] == ss[..j + 1];
    FailFast(pre, key, v, st, j);
  }

  /** A chain whose first tier that does not miss is tier `j`, and whose
      getter rejects there: tiers 0..j are probed in order, the rejection is
      the result, nothing is written and no later tier is touched. */
  lemma {:induction false} GetRejectsAt(ss: seq<Stash>, key: Value, st: Stores, j: nat)
    requires Tiers(ss) && j < |ss|
    requires forall i :: 0 <= i < j ==> Misses(ss[i], key, st)
    requires Get(ss[j], key, st).out.Rejected?
    ensures Get(Merge(ss).value, key, st) == Step(Rejected(ss[j].store), st, Probes(ss[..j + 1], key))
  {
    MergeIsLeftNested(ss);
    var init, t := ss[..|ss| - 1], ss[|ss| - 1];
    if j < |ss| - 1 {
      assert init[..j + 1] == ss[..j + 1] && init[j] == ss[j];
      GetRejectsAt(init, key, st, j);
      CombineGetPrimaryRejects(Merge(init).value, t, key, st);
    } else if j > 0 {
      MissEverywhere(init, key, st);
      assert Misses(init[|init| - 1], key, st);
      CombineGetSecondaryRejects(Merge(init).value, t, key, st);
      assert Get(t, key, st).calls == [GetCall(t.store, PhysicalKey(t, key))];
      assert ss[..j + 1] == ss;
    } else {
      assert ss[..j + 1] == ss;
    }
  }

  /** With distinct stores, the probes of a chain call each tier's getter
      exactly once and no other store's, and call no setter. */
  lemma {:induction false} ProbeCounts(ts: seq<Stash>, key: Value, id: StoreId)
    requires Tiers(ts) && DistinctStores(ts)
    ensures CountSets(Probes(ts, key), id) == 0
    ensures CountGets(Probes(ts, key), id) == if exists i :: 0 <= i < |ts| && ts[i].store == id then 1 else 0
  {
    if ts != [] {
      var init, t := ts[..|ts| - 1], ts[|ts| - 1];
      ProbeCounts(init, key, id);
      var e := [GetCall(t.store, PhysicalKey(t, key))];
      CountsAdd(Probes(init, key), e, id);
      assert e[..0] == [];
      if t.store == id {
        assert forall i :: 0 <= i < |init| ==> init[i].store != id;
      } else {
        assert forall i :: 0 <= i < |init| ==> init[i] == ts[i];
      }
    }
  }

  /** With distinct stores, the writes of a chain call the setter of each
      writable tier exactly once and no other store's, and call no getter. */
  lemma {:induction false} WriteCounts(ts: seq<Stash>, key: Value, v: Value, id: StoreId)
    requires Tiers(ts) && DistinctStores(ts)
    ensures CountGets(Writes(ts, key, v), id) == 0
    ensures CountSets(Writes(ts, key, v), id) ==
            if exists i :: 0 <= i < |ts| && ts[i].store == id && ts[i].writable then 1 else 0
  {
    if ts != [] {
      var init, t := ts[..|ts| - 1], ts[|ts| - 1];
      WriteCounts(init, key, v, id);
      var e := if t.writable then [SetCall(t.store, PhysicalKey(t, key), v)] else [];
      CountsAdd(Writes(init, key, v), e, id);
      assert e != [] ==> e[..0] == [];
      if t.store == id {
        assert forall i :: 0 <= i < |init| ==> init[i].store != id;
      } else {
        assert forall i :: 0 <= i < |init| ==> init[i] == ts[i];
      }
    }
  }

  /** Call counts of the trace a promoting `get` leaves (probes of tiers
      0..k, then writes into tiers before k), tier by tier. */
  lemma PromotionTraceCounts(ss: seq<Stash>, key: Value, v: Value, k: nat, i: nat)
    requires Tiers(ss) && DistinctStores(ss) && k < |ss| && i < |ss|
    ensures var calls := Probes(ss[..k + 1], key) + Writes(ss[..k], key, v);
            CountGets(calls, ss[i].store) == (if i <= k then 1 else 0) &&
            CountSets(calls, ss[i].store) == (if i < k && ss[i].writable then 1 else 0)
  {
    var id := ss[i].store;
    var probed, written := ss[..k + 1], ss[..k];
    CountsAdd(Probes(probed, key), Writes(written, key, v), id);
    ProbeCounts(probed, key, id);
    WriteCounts(written, key, v, id);
    if i <= k {
      assert probed[i].store == id;
    } else {
      assert forall j :: 0 <= j < |probed| ==> probed[j].store != id;
    }
    if i < k {
      assert written[i].store == id;
    } else {
      assert forall j :: 0 <= j < |written| ==> written[j].store != id;
    }
  }

  /** The fan-out in call counts, tier by tier, for a chain over distinct
      stores whose first hit is tier `k`: tiers 0..k have their getter
      called once and later tiers not at all; each writable tier before `k`
      has its setter called once, and no other tier's setter is called. */
  lemma TierCallCounts(ss: seq<Stash>, key: Value, st: Stores, k: nat, i: nat)
    requires Tiers(ss) && DistinctStores(ss) && k < |ss| && i < |ss|
    requires forall j :: 0 <= j < k ==> Misses(ss[j], key, st) && !FailsSet(ss[j], st)
    requires Hits(ss[k], key, st)
    ensures var r := Get(Merge(ss).value, key, st);
            CountGets(r.calls, ss[i].store) == (if i <= k then 1 else 0) &&
            CountSets(r.calls, ss[i].store) == (if i < k && ss[i].writable then 1 else 0)
  {
    var v := Get(ss[k], key, st).out.value;
    PromotesIntoEveryEarlierTier(ss, key, st, k);
    PromotionTraceCounts(ss, key, v, k, i);
  }

  /** After a promoting `get`, the same `get` again is answered by the first
      tier alone: one getter call, no write, the same value. */
  lemma SecondGetServedByFirstTier(ss: seq<Stash>, key: Value, st: Stores, k: nat)
    requires Tiers(ss) && k < |ss|
    requires forall i :: 0 <= i < k ==> Misses(ss[i], key, st) && !FailsSet(ss[i], st)
    requires Hits(ss[k], key, st)
    requires k == 0 || ss[0].writable
    ensures var v := Get(ss[k], key, st).out.value;
            var first := Get(Merge(ss).value, key, st);
            Get(Merge(ss).value, key, first.stores) ==
              Step(Resolved(v), first.stores, [GetCall(ss[0].store, PhysicalKey(ss[0], key))])
  {
    var v := Get(ss[k], key, st).out.value;
    PromotesIntoEveryEarlierTier(ss, key, st, k);
    var after := PutAll(st, ss[..k], key, v);
    if k > 0 {
      PutAllHolds(st, ss[..k], key, v, 0);
      PutAllKeepsFailures(st, ss[..k], key, v, ss[0].store);
      assert Get(ss[0], key, after).out == Resolved(v);
    }
    FirstHitAt(ss, key, after, 0);
    assert ss[..1] == [ss[0]];
  }
}
