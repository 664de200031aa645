/**
 * The key-value session store, with Redis SET-with-TTL semantics: every entry
 * carries an absolute deadline and is visible only while the clock is before it.
 * Expired entries stay in the map; every read treats them as absent, which is
 * what a client of Redis can observe.
 */
module Store {
  import opened Wrappers

  datatype Entry = Entry(value: string, deadline: int)

  type Entries = map<string, Entry>

  /** The error text the Redis client reports for a missing key. */
  const NilReply := "redis: nil"

  predicate Live(m: Entries, now: int, key: string)
  {
    key in m && now < m[key].deadline
  }

  /** GET: the value under a live key; `fault` is a connection failure. */
  function Get(m: Entries, now: int, key: string, fault: Option<string>): (r: Result<string, string>)
    ensures r.Ok? <==> fault.None? && Live(m, now, key)
    ensures r.Ok? ==> r.value == m[key].value
    ensures r.Err? && fault.Some? ==> r.error == fault.value
  {
    if fault.Some? then Err(fault.value)
    else if Live(m, now, key) then Ok(m[key].value)
    else Err(NilReply)
  }

  /** The store itself: its entries and the clock that decides which of them are live. */
  class TtlStore {
    var entries: Entries
    var now: int

    /** SET key value with a time-to-live `ttl` in seconds, counted from the current clock. */
    method Set(key: string, value: string, ttl: int, fault: Option<string>) returns (err: Option<string>)
      modifies this
      ensures err == fault && now == old(now)
      ensures fault.None? ==> entries == old(entries)[key := Entry(value, old(now) + ttl)]
      ensures fault.Some? ==> entries == old(entries)
    {
      err := fault;
      if fault.None? {
        entries := entries[key := Entry(value, now + ttl)];
      }
    }

    /** DEL key; deleting an absent key succeeds. */
    method Del(key: string, fault: Option<string>) returns (err: Option<string>)
      modifies this
      ensures err == fault && now == old(now)
      ensures fault.None? ==> entries == old(entries) - {key}
      ensures fault.Some? ==> entries == old(entries)
    {
      err := fault;
      if fault.None? {
        entries := entries - {key};
      }
    }
  }
}
