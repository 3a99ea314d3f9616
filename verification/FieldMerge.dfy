/** The three-way choice for one field, and for the keys of one map. */
module FieldMerge {
  import opened Wrappers

  /** The value that survives: the changed side, else remote, else the preferred side. */
  function Selected<T(==)>(base: T, local: T, remote: T, preferLocal: bool): T {
    if local == base then remote
    else if remote == base then local
    else if local == remote then remote
    else if preferLocal then local
    else remote
  }

  /** Both sides changed the field, to different values. */
  predicate Conflicts<T(==)>(base: T, local: T, remote: T) {
    local != base && remote != base && local != remote
  }

  function Get<K, V>(m: map<K, V>, key: K): Option<V> {
    if key in m then Some(m[key]) else None
  }

  function SelectedAt<K, V(==)>(base: map<K, V>, local: map<K, V>, remote: map<K, V>, preferLocal: bool, key: K)
    : Option<V>
  {
    Selected(Get(base, key), Get(local, key), Get(remote, key), preferLocal)
  }

  /** The merged map restricted to `keys`. */
  function SelectedMap<K, V(==)>(
    base: map<K, V>, local: map<K, V>, remote: map<K, V>, preferLocal: bool, keys: set<K>): map<K, V>
  {
    map key | key in keys && SelectedAt(base, local, remote, preferLocal, key).Some?
      :: SelectedAt(base, local, remote, preferLocal, key).value
  }

  predicate MapConflicts<K, V(==)>(base: map<K, V>, local: map<K, V>, remote: map<K, V>, keys: set<K>) {
    exists key | key in keys :: Conflicts(Get(base, key), Get(local, key), Get(remote, key))
  }

  function UnionKeys<K, V>(base: map<K, V>, local: map<K, V>, remote: map<K, V>): set<K> {
    base.Keys + local.Keys + remote.Keys
  }

  /** The conflict flag that one record merge accumulates. */
  class ConflictFlag {
    var conflict: bool

    constructor ()
      ensures !conflict
    {
      conflict := false;
    }

    method MergeValue<T(==)>(base: T, local: T, remote: T, preferLocal: bool) returns (selected: T)
      modifies this
      ensures selected == Selected(base, local, remote, preferLocal)
      ensures conflict == (old(conflict) || Conflicts(base, local, remote))
    {
      if local == base {
        selected := remote;
      } else if remote == base {
        selected := local;
      } else if local == remote {
        selected := remote;
      } else {
        conflict := true;
        selected := if preferLocal then local else remote;
      }
    }

    method MergeKeyedMap<K(==), V(==)>(
      base: map<K, V>, local: map<K, V>, remote: map<K, V>, preferLocal: bool, keys: set<K>)
      returns (merged: map<K, V>)
      modifies this
      ensures merged == SelectedMap(base, local, remote, preferLocal, keys)
      ensures conflict == (old(conflict) || MapConflicts(base, local, remote, keys))
    {
      merged := map[];
      var remaining := keys;
      while remaining != {}
        invariant remaining <= keys
        invariant merged == SelectedMap(base, local, remote, preferLocal, keys - remaining)
        invariant conflict == (old(conflict) || MapConflicts(base, local, remote, keys - remaining))
        decreases remaining
      {
        var key :| key in remaining;
        assert keys - (remaining - {key}) == (keys - remaining) + {key};
        var value := MergeValue(Get(base, key), Get(local, key), Get(remote, key), preferLocal);
        if value.Some? {
          merged := merged[key := value.value];
        }
        remaining := remaining - {key};
      }
      assert keys - {} == keys;
    }
  }
}
