/** Key derivation: the transform a stash applies to the caller's key before
    it reaches the backing store. */
module Keys {
  import opened Values

  /** The key fingerprint (an external hashing library): any total function
      from key material to a digest string. */
  type Hash = Value -> string

  /** `addPrefix(prefix)(key)`: the prefix, a colon, then the digest of the key. */
  function AddPrefix(prefix: string, hash: Hash, key: Value): string {
    prefix + ":" + hash(key)
  }

  /** The key transform of a stash: the caller's key as it is (`stash`), or
      the namespaced digest (`namedStash`). */
  datatype KeyTransform = Identity | Named(name: string, hash: Hash)

  /** The physical key the backing getter and setter receive. */
  function Derive(t: KeyTransform, key: Value): Value {
    match t
    case Identity => key
    case Named(name, hash) => Str(AddPrefix(name, hash, key))
  }

  /** The derived key splits back into the prefix and the digest. */
  lemma PrefixedKeyParts(prefix: string, hash: Hash, key: Value)
    ensures var k := AddPrefix(prefix, hash, key);
            |k| == |prefix| + 1 + |hash(key)| &&
            k[..|prefix|] == prefix && k[|prefix|] == ':' && k[|prefix| + 1..] == hash(key)
  {
    var k := AddPrefix(prefix, hash, key);
    assert k == (prefix + [':']) + hash(key);
    assert k[..|prefix|] == prefix;
  }

  /** Under one prefix, two keys share a physical key exactly when their
      digests agree: the prefix neither merges nor separates digests. */
  lemma SamePrefixCollidesIffDigestsAgree(prefix: string, hash: Hash, k1: Value, k2: Value)
    ensures AddPrefix(prefix, hash, k1) == AddPrefix(prefix, hash, k2) <==> hash(k1) == hash(k2)
  {
    PrefixedKeyParts(prefix, hash, k1);
    PrefixedKeyParts(prefix, hash, k2);
  }

  /** Two different colon-free names never derive the same physical key,
      whatever the keys and digests: namespaces are isolated. */
  lemma NamespacesAreDisjoint(p1: string, p2: string, hash: Hash, k1: Value, k2: Value)
    requires p1 != p2
    requires ':' !in p1 && ':' !in p2
    ensures AddPrefix(p1, hash, k1) != AddPrefix(p2, hash, k2)
  {
    var a, b := AddPrefix(p1, hash, k1), AddPrefix(p2, hash, k2);
    PrefixedKeyParts(p1, hash, k1);
    PrefixedKeyParts(p2, hash, k2);
    if |p1| < |p2| {
      assert a[|p1|] == ':' && b[|p1|] == p2[|p1|];
    } else if |p2| < |p1| {
      assert b[|p2|] == ':' && a[|p2|] == p1[|p2|];
    } else {
      var i :| 0 <= i < |p1| && p1[i] != p2[i];
      assert a[i] == p1[i] && b[i] == p2[i];
    }
  }
}
