/**
 * The query client shared by the whole application, reduced to what the client code relies
 * on: a map from query keys to cached entries, each with a stale flag, changed only by
 * `invalidateQueries`, `removeQueries` and `ensureQueryData`.
 */
module QueryCache {
  import opened Wrappers
  import opened QueryKeys

  datatype Entry<D> = Entry(data: D, stale: bool)

  class QueryClient<D> {
    var entries: map<QueryKey, Entry<D>>

    constructor ()
      ensures entries == map[]
    {
      entries := map[];
    }

    /** `invalidateQueries({ queryKey: prefix })`: every entry whose key starts with `prefix` is marked stale; nothing is dropped. */
    method InvalidateQueries(prefix: QueryKey)
      modifies this
      ensures entries.Keys == old(entries.Keys)
      ensures forall k :: k in entries ==> entries[k].data == old(entries[k].data)
      ensures forall k :: k in entries ==> entries[k].stale == (old(entries[k].stale) || HasPrefix(k, prefix))
    {
      entries := map k | k in entries :: if HasPrefix(k, prefix) then entries[k].(stale := true) else entries[k];
    }

    /** `removeQueries({ queryKey: prefix })`: every entry whose key starts with `prefix` is deleted; the others stay as they were. */
    method RemoveQueries(prefix: QueryKey)
      modifies this
      ensures forall k :: k in entries <==> k in old(entries) && !HasPrefix(k, prefix)
      ensures forall k :: k in entries ==> entries[k] == old(entries[k])
    {
      entries := map k | k in entries && !HasPrefix(k, prefix) :: entries[k];
    }

    /**
     * `ensureQueryData`: cached data is returned as it is, stale or not, without a fetch;
     * otherwise the fetch's outcome `fetched` is returned and, when it succeeded, stored fresh.
     */
    method EnsureQueryData<E>(key: QueryKey, fetched: Result<D, E>) returns (r: Result<D, E>)
      modifies this
      ensures key in old(entries) ==> r == Ok(old(entries)[key].data) && entries == old(entries)
      ensures key !in old(entries) ==> r == fetched
      ensures key !in old(entries) && fetched.Ok? ==> entries == old(entries)[key := Entry(fetched.value, false)]
      ensures key !in old(entries) && fetched.Err? ==> entries == old(entries)
    {
      if key in entries {
        r := Ok(entries[key].data);
      } else {
        r := fetched;
        if fetched.Ok? {
          entries := entries[key := Entry(fetched.value, false)];
        }
      }
    }
  }
}
