/** The set-if-absent store behind both de-duplications: Redis `SET key 1 EX ttl NX`. A key
    is held for exactly its time to live, and a refused attempt does not extend it. */
module TtlStore {
  import opened Wrappers

  /** An accepted attempt. */
  datatype Grant<K> = Grant(key: K, at: int)

  predicate Held<K(==)>(expires: map<K, int>, key: K, now: int) {
    key in expires && now < expires[key]
  }

  function SetIfAbsent<K(==)>(expires: map<K, int>, key: K, ttlMs: nat, now: int): (map<K, int>, bool) {
    if Held(expires, key, now) then (expires, false) else (expires[key := now + ttlMs], true)
  }

  predicate GrantedWithin<K(==)>(grants: seq<Grant<K>>, key: K, ttlMs: nat, now: int) {
    exists i :: 0 <= i < |grants| && grants[i].key == key && now - ttlMs < grants[i].at <= now
  }

  /** Grants of one key are at least the time to live apart. */
  predicate Apart<K(==)>(grants: seq<Grant<K>>, ttlMs: nat) {
    forall i, j :: 0 <= i < j < |grants| && grants[i].key == grants[j].key ==> grants[j].at - grants[i].at >= ttlMs
  }

  predicate NotAfter<K>(grants: seq<Grant<K>>, now: int) {
    forall i :: 0 <= i < |grants| ==> grants[i].at <= now
  }

  /** The expiry a key has after its last grant. */
  function LastExpiry<K(==)>(grants: seq<Grant<K>>, key: K, ttlMs: nat): Option<int> {
    if grants == [] then None
    else
      var last := grants[|grants| - 1];
      if last.key == key then Some(last.at + ttlMs) else LastExpiry(grants[..|grants| - 1], key, ttlMs)
  }

  /** The store reflects the grants made so far: it holds for every key its last grant. */
  ghost predicate Reflects<K(!new)>(expires: map<K, int>, grants: seq<Grant<K>>, ttlMs: nat, now: int) {
    && Apart(grants, ttlMs)
    && NotAfter(grants, now)
    && forall key :: LastExpiry(grants, key, ttlMs) == if key in expires then Some(expires[key]) else None
  }

  /** The key is held exactly when it was granted within the time to live. */
  lemma {:induction false} HeldIffGranted<K(!new)>(grants: seq<Grant<K>>, key: K, ttlMs: nat, now: int)
    requires Apart(grants, ttlMs) && NotAfter(grants, now)
    ensures var e := LastExpiry(grants, key, ttlMs);
      (e.Some? && now < e.value) <==> GrantedWithin(grants, key, ttlMs, now)
  {
    if grants == [] {
    } else {
      var n := |grants| - 1;
      if grants[n].key == key {
        assert GrantedWithin(grants, key, ttlMs, now) ==> now - ttlMs < grants[n].at;
      } else {
        HeldIffGranted(grants[..n], key, ttlMs, now);
        assert forall i :: 0 <= i < n ==> grants[..n][i] == grants[i];
      }
    }
  }

  /** An attempt is accepted exactly when the key has not been granted within the time to
      live; either way the store goes on reflecting the grants. */
  lemma AttemptReflects<K(!new)>(expires: map<K, int>, grants: seq<Grant<K>>, ttlMs: nat, before: int, key: K, now: int)
    requires Reflects(expires, grants, ttlMs, before) && before <= now
    ensures var (expires', ok) := SetIfAbsent(expires, key, ttlMs, now);
      && (ok <==> !GrantedWithin(grants, key, ttlMs, now))
      && Reflects(expires', if ok then grants + [Grant(key, now)] else grants, ttlMs, now)
  {
    HeldIffGranted(grants, key, ttlMs, now);
    assert LastExpiry(grants, key, ttlMs) == if key in expires then Some(expires[key]) else None;
    if !Held(expires, key, now) {
      var grants' := grants + [Grant(key, now)];
      assert grants'[..|grants|] == grants;
      GrantStaysApart(grants, ttlMs, key, now);
    }
  }

  lemma GrantStaysApart<K(!new)>(grants: seq<Grant<K>>, ttlMs: nat, key: K, now: int)
    requires Apart(grants, ttlMs) && NotAfter(grants, now) && !GrantedWithin(grants, key, ttlMs, now)
    ensures Apart(grants + [Grant(key, now)], ttlMs)
  {
  }

  /** The Redis client as the services use it. */
  class Redis<K(==)> {
    var expires: map<K, int>

    constructor ()
      ensures expires == map[]
    {
      expires := map[];
    }

    method SetNx(key: K, ttlMs: nat, now: int) returns (ok: bool)
      modifies this
      ensures (expires, ok) == SetIfAbsent(old(expires), key, ttlMs, now)
    {
      if key in expires && now < expires[key] { return false; }
      expires := expires[key := now + ttlMs];
      ok := true;
    }
  }
}
