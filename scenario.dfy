/** The three-tier scenario of the repository's test: stores A and B start
    empty, store C answers the value `val` (there "val") for `key` (there
    "key"); `merge(A, B, C).get(key)` is issued twice. Stated for any three
    distinct stores, any key and any truthy value. */
module Scenario {
  import opened Values
  import opened Stores
  import opened Stashes
  import opened Chains

  /** The three tiers, each with its getter and a setter. */
  function ScenarioTiers(a: StoreId, b: StoreId, c: StoreId): seq<Stash> {
    [PlainStash(a, true), PlainStash(b, true), PlainStash(c, true)]
  }

  /** A and B empty; C holds `val` under `key`. */
  function ScenarioStores(a: StoreId, b: StoreId, c: StoreId, key: Value, val: Value): Stores {
    map[a := EmptyStore, b := EmptyStore, c := EmptyStore.(entries := map[key := val])]
  }

  /** The scenario's first `get` misses in A and B and hits in C. */
  lemma ScenarioProbes(a: StoreId, b: StoreId, c: StoreId, key: Value, val: Value)
    requires a != b && b != c && a != c && Truthy(val)
    ensures var ss, st := ScenarioTiers(a, b, c), ScenarioStores(a, b, c, key, val);
            Tiers(ss) && DistinctStores(ss) &&
            Misses(ss[0], key, st) && Misses(ss[1], key, st) && Hits(ss[2], key, st) &&
            Get(ss[2], key, st).out.value == val &&
            !FailsSet(ss[0], st) && !FailsSet(ss[1], st)
  {
  }

  /** The first `get` resolves to `val` after asking A, B and C in turn and
      then setting `val` into A and into B; A and B then hold `val`. */
  lemma FirstGetPromotes(a: StoreId, b: StoreId, c: StoreId, key: Value, val: Value)
    requires a != b && b != c && a != c && Truthy(val)
    ensures var first := Get(Merge(ScenarioTiers(a, b, c)).value, key, ScenarioStores(a, b, c, key, val));
            first.out == Resolved(val) &&
            first.calls == [GetCall(a, key), GetCall(b, key), GetCall(c, key), SetCall(a, key, val), SetCall(b, key, val)] &&
            Lookup(first.stores, a, key) == val &&
            Lookup(first.stores, b, key) == val
  {
    var ss, st := ScenarioTiers(a, b, c), ScenarioStores(a, b, c, key, val);
    ScenarioProbes(a, b, c, key, val);
    PromotesIntoEveryEarlierTier(ss, key, st, 2);
    var t0, t1 := [ss[0]], [ss[0], ss[1]];
    assert t0[..0] == [] && t1[..1] == t0 && ss[..2] == t1 && ss[..3] == ss;
    assert Probes(t0, key) == [GetCall(a, key)];
    assert Probes(t1, key) == [GetCall(a, key), GetCall(b, key)];
    assert Probes(ss, key) == [GetCall(a, key), GetCall(b, key), GetCall(c, key)];
    assert Writes(t0, key, val) == [SetCall(a, key, val)];
    assert Writes(t1, key, val) == [SetCall(a, key, val), SetCall(b, key, val)];
    PutAllHolds(st, t1, key, val, 0);
    PutAllHolds(st, t1, key, val, 1);
  }

  /** The second `get` resolves to `val` from A alone. */
  lemma SecondGetHitsA(a: StoreId, b: StoreId, c: StoreId, key: Value, val: Value)
    requires a != b && b != c && a != c && Truthy(val)
    ensures var chain := Merge(ScenarioTiers(a, b, c)).value;
            var first := Get(chain, key, ScenarioStores(a, b, c, key, val));
            Get(chain, key, first.stores) == Step(Resolved(val), first.stores, [GetCall(a, key)])
  {
    ScenarioProbes(a, b, c, key, val);
    SecondGetServedByFirstTier(ScenarioTiers(a, b, c), key, ScenarioStores(a, b, c, key, val), 2);
  }

  /** Over both calls: A's getter twice, B's and C's once each, A's and B's
      setters once each, C's setter never. */
  lemma ThreeTierCallCounts(a: StoreId, b: StoreId, c: StoreId, key: Value, val: Value)
    requires a != b && b != c && a != c && Truthy(val)
    ensures var chain := Merge(ScenarioTiers(a, b, c)).value;
            var first := Get(chain, key, ScenarioStores(a, b, c, key, val));
            var second := Get(chain, key, first.stores);
            var calls := first.calls + second.calls;
            CountGets(calls, a) == 2 && CountGets(calls, b) == 1 && CountGets(calls, c) == 1 &&
            CountSets(calls, a) == 1 && CountSets(calls, b) == 1 && CountSets(calls, c) == 0
  {
    var ss, st := ScenarioTiers(a, b, c), ScenarioStores(a, b, c, key, val);
    ScenarioProbes(a, b, c, key, val);
    SecondGetHitsA(a, b, c, key, val);
    var chain := Merge(ss).value;
    var first := Get(chain, key, st);
    var second := Get(chain, key, first.stores);
    CountOne(GetCall(a, key), a);
    CountOne(GetCall(a, key), b);
    CountOne(GetCall(a, key), c);
    TierCallCounts(ss, key, st, 2, 0);
    TierCallCounts(ss, key, st, 2, 1);
    TierCallCounts(ss, key, st, 2, 2);
    CountsAdd(first.calls, second.calls, a);
    CountsAdd(first.calls, second.calls, b);
    CountsAdd(first.calls, second.calls, c);
  }
}
