# cache-merger in Dafny

A model of `cache-merger`, a small library that chains key-value caches
("stashes") into a fallback hierarchy. A stash is a pair of asynchronous
operations: `get(key)`, and a curried `set(key)(val)`. The library builds
stashes in three ways:

- `stash(getter)(setter = noSet)` takes a getter and an optional setter. The
  default setter `noSet` resolves at once and writes nothing.
- `namedStash(name)(cache)(getter)(setter)` rewrites every key to
  `name + ":" + hash(key)` before it reaches the backing store.
- `combine(primary, secondary)` is the fallback-and-promote operator:
  - `get` asks the primary first.
  - If the primary's answer is falsy, it asks the secondary.
  - A truthy answer from the secondary is written into the primary, then returned.
  - `set` writes the primary, then the secondary, and stops at the first
    failure.

`merge(S1, ..., Sn)` folds `combine` over the list, so the chain nests to the
left: `combine(combine(S1, S2), S3)`.

The model has the following modules:

- `Values`: JavaScript values as far as the library sees them, and JavaScript
  truthiness.
- `Keys`: key derivation (`addPrefix`), with the fingerprint function `hash`
  as a parameter.
- `Stores`:
  - the backing stores, a map from store id to entries;
  - two flags per store, for a getter and a setter that reject;
  - the value a store's setter resolves with;
  - the calls made into backing stores, as events.
- `Stashes`:
  - the stash algebra;
  - `Get`, `Set` and `Fallback`, the behaviour of any stash as a step over the
    backing stores (the outcome, the new stores, the calls made, in order);
  - the properties of `combine` and `merge`.
- `Chains`: the behaviour of merged chains of leaf stashes of any length. This
  covers:
  - probe order;
  - the exact call trace;
  - promotion into every earlier tier;
  - fail-fast `set`;
  - a rejecting getter;
  - per-tier call counts;
  - the second `get` served by the first tier.
- `Scenario`: the three-tier scenario of the repository's test, stated for any
  three distinct stores, any key and any truthy value.
- `Runtime`: the effectful reading. A `Backend` object holds the stores and
  the log of calls as mutable fields. Its `Get` and `Set` methods run the
  calls one after another, each awaiting the previous one, and each method is
  proved to produce exactly the step that `Stashes.Get` / `Stashes.Set`
  describe.

Hit or miss is decided by JavaScript truthiness (`cache-merger.js:36`,
`:40`), not by a check for `undefined`: a stored `0`, `""`, `false` or
`null` is a miss (`Values.Truthy`). `Stashes.StoredFalsyValueIsAMiss` shows
the consequence: a falsy stored value is overwritten by the secondary's
truthy value.

## Model

| member | source | states |
|---|---|---|
| Values.Truthy | cache-merger.js:36-40 | the truthiness test of `val ?` and `if(val)`: a value is falsy exactly when it is `undefined`, `null`, `false`, `0` or `""` |
| Keys.AddPrefix | cache-merger.js:6 | `addPrefix`; no contract of its own: its shape is stated by `Keys.PrefixedKeyParts` and its collisions by `Keys.SamePrefixCollidesIffDigestsAgree` and `Keys.NamespacesAreDisjoint` |
| Keys.PrefixedKeyParts | cache-merger.js:6 | the derived key is exactly the prefix, one `:` and the digest of the key, in that order |
| Keys.SamePrefixCollidesIffDigestsAgree | cache-merger.js:6 | under one prefix, two keys map to the same physical key if and only if their digests agree |
| Keys.NamespacesAreDisjoint | cache-merger.js:15-18 | two different colon-free names never produce the same physical key, whatever the keys and digests |
| Stashes.NamedStash | cache-merger.js:15-18 | `namedStash`; no contract of its own: its behaviour is stated by `Stashes.NamedStashDerivesKey` |
| Stashes.NamedStashDerivesKey | cache-merger.js:15-18 | a named stash's `get` is exactly its getter called with `name:hash(key)`, and its `set` exactly its setter called with that key and the value unchanged |
| Stashes.PlainStash | cache-merger.js:20-25 | `stash` with a setter or with the default `noSet`; no contract of its own: its behaviour is stated by `Stashes.PlainStashPassesKeyThrough` |
| Stashes.PlainStashPassesKeyThrough | cache-merger.js:20-25 | a plain stash's `get` is exactly its getter and its `set` exactly its setter, both with the key unchanged; with the default `noSet` a set resolves to `undefined` without calling anything |
| Stashes.Set | cache-merger.js:48 | a set's rejection always comes from a backing store inside the stash |
| Stashes.Get | cache-merger.js:34-47 | a get that resolves to a falsy value leaves every store unchanged; a rejection comes from a store inside the stash |
| Stashes.Fallback | cache-merger.js:38-46 | after a primary miss, a falsy secondary answer changes no store; a rejection comes from one of the two stashes' stores |
| Stashes.SetWritesOnlyItsValue | cache-merger.js:48 | every setter call made by `set(key)(val)` writes `val` itself |
| Stashes.GetWritesOnlyWhatItReturns | cache-merger.js:34-47 | a get that misses calls no setter; a get that hits writes only the value it returns |
| Stashes.SetTouchesOnlyItsStores | cache-merger.js:48 | `set` leaves every backing store outside the stash unchanged |
| Stashes.GetTouchesOnlyItsStores | cache-merger.js:34-47 | `get`, promotions included, leaves every backing store outside the stash unchanged |
| Stashes.Merge | cache-merger.js:51 | `merge` yields a stash exactly when given at least one stash (`reduce` with no initial value throws on none) |
| Stashes.Reduce | cache-merger.js:51 | `reduce` without an initial value over `combine`; no contract of its own: its shape is stated by `Stashes.ReduceSnoc` and `Stashes.MergeIsLeftNested` |
| Stashes.ReduceSnoc | cache-merger.js:51 | folding one more stash onto a reduction nests it as the secondary of the previous result |
| Stashes.MergeIsLeftNested | cache-merger.js:51 | `merge(S)` is `S`, and `merge(S1..Sn)` is `combine(merge(S1..Sn-1), Sn)` |
| Stashes.MergeOfThree | cache-merger.js:51 | `merge(S1, S2, S3)` is `combine(combine(S1, S2), S3)` |
| Stashes.CombineGetPrimaryHit | cache-merger.js:35-37 | a truthy primary answer is the result: the combined get is exactly the primary's own get, the secondary is not asked and `combine` adds no write (a leaf primary writes nothing) |
| Stashes.CombineGetPrimaryRejects | cache-merger.js:35-37 | a rejection from the primary's get is the result: the combined get is exactly the primary's own get and the secondary is never asked |
| Stashes.CombineGetSecondaryRejects | cache-merger.js:38-46 | after a primary miss, a rejection from the secondary's get is the result, with the stores it left and the calls of both gets; no promotion is attempted |
| Stashes.CombineGetPromotes | cache-merger.js:38-41 | over two leaves: getter of primary, getter of secondary, then one setter call on the primary with `v`; the result is `v`, or the setter's rejection with the stores unchanged |
| Stashes.CombineGetFallsBack | cache-merger.js:38-41 | over any two stashes: after a primary miss and a truthy secondary `v`, `v` is set into the primary, and the result is `v` or that set's rejection |
| Stashes.CombineGetBothMiss | cache-merger.js:42-44 | when both miss, the secondary's own falsy value is the result, the stores are unchanged and no setter is called |
| Stashes.CombineSetInOrder | cache-merger.js:48 | the primary is set first; if it rejects, the secondary is never called and the rejection is the result; otherwise the result is the secondary's rejection or `undefined` |
| Stashes.StoredFalsyValueIsAMiss | cache-merger.js:36-40 | a primary that holds any falsy value counts as a miss: the secondary's truthy value is returned and written over it |
| Chains.MissEverywhere | cache-merger.js:33-51 | when every tier misses: one getter call per tier, front to back; nothing is written; the result is the last tier's falsy answer |
| Chains.FirstHitAt | cache-merger.js:33-51 | tiers 0..k are probed in order and no later tier is touched; the hit `v` is then set into `merge(S1..Sk)` and the result is `v` or that set's rejection |
| Chains.HitAtLastTier | cache-merger.js:33-51 | the case of `FirstHitAt` where the hit is in the last tier of a chain of two or more |
| Chains.WriteEverywhere | cache-merger.js:48-51 | with no failing setter, `set` on a chain writes `v` into every writable tier, front to back; the final stores hold exactly those writes |
| Chains.FailFast | cache-merger.js:48-51 | `set` on a chain stops at the first rejecting setter: earlier tiers are written, no later tier is called, and the rejection is the result |
| Chains.PromotesIntoEveryEarlierTier | cache-merger.js:33-51 | a chain whose first hit is tier k: getters of tiers 0..k, then setters of the writable tiers before k, in order; those tiers then hold `v`, and `v` is the result |
| Chains.PromotionFailureFailsGet | cache-merger.js:41-51 | if a promotion write rejects, `get` rejects with it; earlier tiers are written and no tier after the hit is touched |
| Chains.GetRejectsAt | cache-merger.js:33-51 | when tier j is the first that does not miss and its getter rejects: tiers 0..j are probed in order, the rejection is the result, nothing is written and no later tier is called |
| Chains.ProbeCounts | cache-merger.js:33-51 | over distinct stores, probing calls each tier's getter once, no other getter and no setter |
| Chains.WriteCounts | cache-merger.js:48-51 | over distinct stores, writing calls each writable tier's setter once, no other setter and no getter |
| Chains.PromotionTraceCounts | cache-merger.js:33-51 | the trace of a promoting get has one getter call per probed tier and one setter call per writable tier before the hit |
| Chains.TierCallCounts | cache-merger.js:33-51 | fan-out per tier: getters of tiers up to the hit once and later ones never; setters of writable tiers before the hit once and no others |
| Chains.SecondGetServedByFirstTier | cache-merger.js:33-51 | after a promoting get, the same get is answered by the first tier alone: one getter call, no write, the same value |
| Scenario.ScenarioProbes | cache-merger.test.js:8-28 | in the test's setup A and B miss, C hits with the value, and no setter rejects |
| Scenario.FirstGetPromotes | cache-merger.test.js:29-36 | first get: getters of A, B, C, then setters of A and B with the value; the result is the value, and A and B then hold it |
| Scenario.SecondGetHitsA | cache-merger.test.js:37-39 | second get: only A's getter is called, and the value is returned |
| Scenario.ThreeTierCallCounts | cache-merger.test.js:40-45 | over both gets: A's getter twice, B's and C's once each; A's and B's setters once each; C's setter never |
| Runtime.Backend.CallGetter | cache-merger.js:23 | a getter call logs itself, changes no store, and answers the stored value, `undefined`, or a rejection |
| Runtime.Backend.CallSetter | cache-merger.js:24 | a setter call logs itself and either stores the value or rejects, leaving the stores unchanged |
| Runtime.Backend.Set | cache-merger.js:48 | the sequential `set` produces exactly the outcome, stores and calls of `Stashes.Set` |
| Runtime.Backend.Get | cache-merger.js:34-47 | the sequential `get` produces exactly the outcome, stores and calls of `Stashes.Get` |
| Runtime.Backend.GetCombined | cache-merger.js:34-37 | `combine(p, q).get` awaits the primary and falls back on a miss, producing exactly `Stashes.Get` of the combined stash |
| Runtime.Backend.Fallback | cache-merger.js:38-46 | the secondary lookup and the awaited promotion produce exactly `Stashes.Fallback` |

## Left out

- The adapters `getLocal`, `setLocal`, `getRedis` and `setRedis` (`cache-merger.js:8-12`) are left out. Each wraps one library client. Here a leaf's getter and setter are a backing store in the `Stores` map instead. A redis-backed tier is a store whose flags never reject. A failure swallowed by `.catch(() => undefined)` is not modelled: a set that resolves without writing, or a get that answers `undefined` whatever the store holds. The same goes for a setter that resolves without storing anything. `Chains.SecondGetServedByFirstTier` assumes the promotion write lands.
- Getters and setters are store-backed, not arbitrary user functions. A leaf reads and writes one map, and the model captures any rejection through the store's flags. A getter that answers unrelated values, or a setter with other side effects, is not modelled.
- The `object-hash` fingerprint (`cache-merger.js:4`) is a parameter of type `Value -> string`. No property of the real digest (length, collision resistance) is assumed.
- Promise scheduling is not modelled, and `cache.promise` (`cache-merger.js:27`) is only its factory. Each `get`/`set` is its own run to completion. Interleavings of concurrent `get`s on the same key (a cache stampede) are not modelled.
- Expiry times are not modelled. `exp` is only passed through by the adapters, which are left out.
- Numbers are mathematical integers. Fractions, `NaN` and `-0` are not modelled; `NaN` and `-0` are falsy in JavaScript.
- Rejections carry the id of the rejecting store, not the error value.
- The chain theorems in `Chains` are stated for chains whose tiers are leaves. Nested chains are covered only by the general `Stashes` lemmas.
- `merge()` with no arguments: `reduce` throws a `TypeError`. The model returns `None` and carries no error value.
- `namedStash(...)(noSet)`: `noSet(cache)(key)` is already a promise, so `set(key)(val)` throws a `TypeError`. The model's named stashes always have a real setter.
