/**
 * What the four reference-data stores have in common: a list held in state
 * together with `loading` and `error`, a key/value cache in front of the remote
 * table, and three actions:
 *   - `fetchX`, which serves a cached list and schedules a refresh, or reads the
 *     table and caches what it got;
 *   - `refreshXInBackground`, which reads the table and silently ignores failure;
 *   - `fetchXPorId`, which looks in the list first and only then asks the table.
 * Each remote read is represented by the answer it gave.
 */
module ReferenceStore {
  import opened Wrappers
  import opened JsText

  /** The answer of a remote read: the rows, or the error's message. */
  datatype Fetched<D> = Loaded(data: D) | Failed(message: string)

  /** What `saveToCache` records: the value and the time-to-live it was given. */
  datatype CacheEntry<V> = CacheEntry(value: V, ttlMinutes: int)

  /** `getFromCache(key)`: the stored value whatever its age (stale entries are
      still served), or `None` when nothing was ever stored under `key`. */
  function Lookup<V>(entries: map<string, CacheEntry<V>>, key: string): (r: Option<V>)
    ensures r.Some? <==> key in entries
  {
    if key in entries then Some(entries[key].value) else None
  }

  /** `saveToCache(key, value, ttl)`: overwrites the entry for `key`. A lookup of
      `key` then gives `value`; every other key is untouched. */
  function Store<V>(entries: map<string, CacheEntry<V>>, key: string, value: V, ttl: int)
    : (r: map<string, CacheEntry<V>>)
    ensures Lookup(r, key) == Some(value) && r[key].ttlMinutes == ttl
    ensures forall k :: k != key ==> Lookup(r, k) == Lookup(entries, k)
    ensures r.Keys == entries.Keys + {key}
  {
    entries[key := CacheEntry(value, ttl)]
  }

  /** The client-side cache, one per payload type. */
  class Cache<V> {
    var entries: map<string, CacheEntry<V>>

    constructor ()
      ensures entries == map[]
    {
      entries := map[];
    }

    function Get(key: string): (r: Option<V>)
      reads this
      ensures r == Lookup(entries, key)
    {
      Lookup(entries, key)
    }

    method Save(key: string, value: V, ttl: int)
      modifies this
      ensures entries == Store(old(entries), key, value, ttl)
    {
      entries := entries[key := CacheEntry(value, ttl)];
    }
  }

  /** The state of a store: `{ list, loading, error }`. */
  datatype State<T> = State(list: seq<T>, loading: bool, error: Option<string>)

  /** The state `state: () => (...)` starts from. */
  function Initial<T>(): (s: State<T>)
    ensures s.list == [] && !s.loading && s.error.None?
  {
    State([], false, None)
  }

  /** The outcome of `fetchX`: the new state, the new cache, and whether a
      background refresh was started. */
  datatype FetchOutcome<T> = FetchOutcome(
    state: State<T>,
    entries: map<string, CacheEntry<seq<T>>>,
    refreshScheduled: bool)

  /** `fetchX`, given the answer the table would give. On a hit the cached list is
      served at once and a refresh is scheduled, with `loading`, `error` and the
      cache left alone. On a miss the table is read: the rows become the list and
      are cached under `key` for `ttl` minutes, or the message becomes the error
      and the list stays; either way `loading` ends false. A success does not
      clear an earlier error. */
  function FetchList<T>(s: State<T>, entries: map<string, CacheEntry<seq<T>>>, key: string, ttl: int,
                        answer: Fetched<seq<T>>): (o: FetchOutcome<T>)
    ensures key in entries ==>
      o == FetchOutcome(s.(list := entries[key].value), entries, true)
    ensures key !in entries && answer.Loaded? ==>
      o == FetchOutcome(s.(list := answer.data, loading := false), Store(entries, key, answer.data, ttl), false)
    ensures key !in entries && answer.Failed? ==>
      o == FetchOutcome(s.(loading := false, error := Some(answer.message)), entries, false)
  {
    match Lookup(entries, key)
    case Some(cached) => FetchOutcome(s.(list := cached), entries, true)
    case None =>
      match answer
      case Loaded(data) => FetchOutcome(s.(list := data, loading := false), Store(entries, key, data, ttl), false)
      case Failed(message) => FetchOutcome(s.(loading := false, error := Some(message)), entries, false)
  }

  /** The outcome of `refreshXInBackground`. */
  datatype RefreshOutcome<T> = RefreshOutcome(state: State<T>, entries: map<string, CacheEntry<seq<T>>>)

  /** `refreshXInBackground`, given the answer the table would give: a success
      overwrites the list and the cache entry; a failure changes nothing, not
      even `error`. */
  function Refresh<T>(s: State<T>, entries: map<string, CacheEntry<seq<T>>>, key: string, ttl: int,
                      answer: Fetched<seq<T>>): (o: RefreshOutcome<T>)
    ensures answer.Failed? ==> o == RefreshOutcome(s, entries)
    ensures answer.Loaded? ==>
      o == RefreshOutcome(s.(list := answer.data), Store(entries, key, answer.data, ttl))
    ensures o.state.loading == s.loading && o.state.error == s.error
  {
    match answer
    case Loaded(data) => RefreshOutcome(s.(list := data), Store(entries, key, data, ttl))
    case Failed(_) => RefreshOutcome(s, entries)
  }

  /** `list[k]` is the first element of `list` whose id is `id`. */
  predicate FirstWithId<T>(list: seq<T>, k: int, id: JsValue, idOf: T -> JsValue) {
    0 <= k < |list| && idOf(list[k]) == id && forall j :: 0 <= j < k ==> idOf(list[j]) != id
  }

  /** `list.find(e => e.id === id)`: the first element with that id. Ids are
      compared as JavaScript values, so the number 3 and the text "3" differ. */
  function FindById<T>(list: seq<T>, id: JsValue, idOf: T -> JsValue): (r: Option<T>)
    ensures r.Some? <==> exists k :: 0 <= k < |list| && idOf(list[k]) == id
    ensures r.Some? ==> exists k :: FirstWithId(list, k, id, idOf) && list[k] == r.value
  {
    if list == [] then None
    else if idOf(list[0]) == id then
      assert FirstWithId(list, 0, id, idOf);
      Some(list[0])
    else
      var r := FindById(list[1..], id, idOf);
      FindByIdShift(list, id, idOf, r);
      r
  }

  lemma FindByIdShift<T>(list: seq<T>, id: JsValue, idOf: T -> JsValue, r: Option<T>)
    requires list != [] && idOf(list[0]) != id
    requires r.Some? <==> exists k :: 0 <= k < |list[1..]| && idOf(list[1..][k]) == id
    requires r.Some? ==> exists k :: FirstWithId(list[1..], k, id, idOf) && list[1..][k] == r.value
    ensures r.Some? <==> exists k :: 0 <= k < |list| && idOf(list[k]) == id
    ensures r.Some? ==> exists k :: FirstWithId(list, k, id, idOf) && list[k] == r.value
  {
    if r.Some? {
      var k :| FirstWithId(list[1..], k, id, idOf) && list[1..][k] == r.value;
      assert list[k + 1] == r.value && idOf(list[k + 1]) == id;
      forall j | 0 <= j < k + 1 ensures idOf(list[j]) != id {
        if j > 0 {
          assert list[j] == list[1..][j - 1];
        }
      }
      assert FirstWithId(list, k + 1, id, idOf);
    } else {
      forall k | 0 <= k < |list| ensures idOf(list[k]) != id {
        if k > 0 {
          assert list[k] == list[1..][k - 1];
        }
      }
    }
  }

  /** The outcome of `fetchXPorId`: the row returned (`None` for `null`), the
      new state, and whether the table was asked. */
  datatype ByIdOutcome<T> = ByIdOutcome(found: Option<T>, state: State<T>, remoteCalled: bool)

  /** `fetchXPorId(id)`, given the answer the table would give to
      `.eq('id', id).single()`. A local match is returned without asking the
      table and without touching state. Otherwise the table's row is returned,
      or, on failure, `None` with the message recorded as the error. */
  function FetchById<T>(s: State<T>, id: JsValue, idOf: T -> JsValue, answer: Fetched<T>): (o: ByIdOutcome<T>)
    ensures FindById(s.list, id, idOf).Some? ==>
      o == ByIdOutcome(FindById(s.list, id, idOf), s, false)
    ensures FindById(s.list, id, idOf).None? && answer.Loaded? ==>
      o == ByIdOutcome(Some(answer.data), s, true)
    ensures FindById(s.list, id, idOf).None? && answer.Failed? ==>
      o == ByIdOutcome(None, s.(error := Some(answer.message)), true)
    ensures o.state.list == s.list && o.state.loading == s.loading
  {
    var local := if |s.list| > 0 then FindById(s.list, id, idOf) else None;
    if local.Some? then ByIdOutcome(local, s, false)
    else match answer
      case Loaded(row) => ByIdOutcome(Some(row), s, true)
      case Failed(message) => ByIdOutcome(None, s.(error := Some(message)), true)
  }

  // ----- properties of the transitions -----

  /** After a miss that loaded, the next fetch is a hit on the same rows: it
      serves them without asking the table and schedules a refresh. */
  lemma MissThenHit<T>(s: State<T>, entries: map<string, CacheEntry<seq<T>>>, key: string, ttl: int,
                       data: seq<T>, answer: Fetched<seq<T>>)
    requires key !in entries
    ensures var first := FetchList(s, entries, key, ttl, Loaded(data));
      var second := FetchList(first.state, first.entries, key, ttl, answer);
      second.state == first.state && second.state.list == data
        && second.entries == first.entries && second.refreshScheduled
  {
    var first := FetchList(s, entries, key, ttl, Loaded(data));
    assert key in first.entries && first.entries[key].value == data;
  }

  /** A fetch that was not a hit never leaves the store loading. */
  lemma FetchSettlesLoading<T>(s: State<T>, entries: map<string, CacheEntry<seq<T>>>, key: string, ttl: int,
                               answer: Fetched<seq<T>>)
    ensures var o := FetchList(s, entries, key, ttl, answer);
      !o.refreshScheduled ==> !o.state.loading
    ensures var o := FetchList(s, entries, key, ttl, answer);
      o.refreshScheduled <==> key in entries
  {
  }

  /** A failed fetch keeps the list it had, and so does a failed refresh. */
  lemma FailureKeepsList<T>(s: State<T>, entries: map<string, CacheEntry<seq<T>>>, key: string, ttl: int,
                            message: string)
    ensures FetchList(s, entries, key, ttl, Failed(message)).state.list ==
      (if key in entries then entries[key].value else s.list)
    ensures Refresh(s, entries, key, ttl, Failed(message)).state == s
  {
  }

  /** `error` is never cleared: once set, no fetch, refresh or lookup removes it. */
  lemma ErrorIsSticky<T>(s: State<T>, entries: map<string, CacheEntry<seq<T>>>, key: string, ttl: int,
                         answer: Fetched<seq<T>>, id: JsValue, idOf: T -> JsValue, row: Fetched<T>)
    requires s.error.Some?
    ensures FetchList(s, entries, key, ttl, answer).state.error.Some?
    ensures Refresh(s, entries, key, ttl, answer).state.error == s.error
    ensures FetchById(s, id, idOf, row).state.error.Some?
  {
  }

  /** A refresh after a hit makes the table's rows both the list and the cached
      value, so the next fetch serves them. */
  lemma HitThenRefresh<T>(s: State<T>, entries: map<string, CacheEntry<seq<T>>>, key: string, ttl: int,
                          answer: Fetched<seq<T>>, data: seq<T>)
    requires key in entries
    ensures var hit := FetchList(s, entries, key, ttl, answer);
      var refreshed := Refresh(hit.state, hit.entries, key, ttl, Loaded(data));
      var next := FetchList(refreshed.state, refreshed.entries, key, ttl, answer);
      refreshed.state.list == data && next.state.list == data && next.refreshScheduled
  {
    var hit := FetchList(s, entries, key, ttl, answer);
    var refreshed := Refresh(hit.state, hit.entries, key, ttl, Loaded(data));
    assert key in refreshed.entries && refreshed.entries[key].value == data;
  }

  /** Looking up an element that is in the list is answered locally with the
      first element carrying that id. */
  lemma LocalHitIsFirstMatch<T>(s: State<T>, k: nat, idOf: T -> JsValue, answer: Fetched<T>)
    requires k < |s.list|
    ensures var o := FetchById(s, idOf(s.list[k]), idOf, answer);
      !o.remoteCalled && o.state == s && o.found.Some? && idOf(o.found.value) == idOf(s.list[k])
      && exists j :: 0 <= j <= k && s.list[j] == o.found.value
  {
    var id := idOf(s.list[k]);
    var r := FindById(s.list, id, idOf);
    assert r.Some?;
    var j :| FirstWithId(s.list, j, id, idOf) && s.list[j] == r.value;
    assert j <= k;
  }
}
