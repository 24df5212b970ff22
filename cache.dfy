/**
 * A time-limited cache kept in the browser's key/value storage. Each entry
 * is stored as JSON holding the value and the moment it expires; reading an
 * expired or damaged entry deletes it. The storage is a map from key to what
 * parsing its text yields, and the clock is a parameter (milliseconds).
 */
module Cache {
  import opened Wrappers

  /**
   * What `JSON.parse` makes of a stored string: the empty string (which the
   * reader treats as absent), text that does not parse, a JSON value that is
   * not an object (such as `null` or a number), or an object with the two
   * fields, either of which may be missing.
   */
  datatype Item<V> = Blank | Unparseable | NotAnObject | Entry(value: Option<V>, expiresAt: Option<int>)

  type Store<V> = map<string, Item<V>>

  const MillisPerMinute: int := 60 * 1000
  const CachePrefix: string := "cache:"

  /** `!entry?.expiresAt`: a missing expiry or an expiry of 0 counts as none. */
  predicate NoExpiry<V>(item: Item<V>) {
    !item.Entry? || item.expiresAt.None? || item.expiresAt.value == 0
  }

  /** An entry the reader throws away: damaged, without an expiry, or past it. */
  predicate Stale<V>(item: Item<V>, now: int) {
    !item.Blank? && (NoExpiry(item) || now > item.expiresAt.value)
  }

  /** An entry the reader returns. */
  predicate Live<V>(item: Item<V>, now: int) {
    item.Entry? && !NoExpiry(item) && now <= item.expiresAt.value
  }

  /**
   * `cacheGet` as a value: what it returns and what the store holds after.
   * An absent or blank key gives nothing and changes nothing; a stale entry
   * gives nothing and is removed; a live entry gives its value.
   */
  function Lookup<V>(items: Store<V>, key: string, now: int): (r: (Option<V>, Store<V>))
    ensures key !in items || items[key].Blank? ==> r == (None, items)
    ensures key in items && Stale(items[key], now) ==> r == (None, items - {key})
    ensures key in items && Live(items[key], now) ==> r == (items[key].value, items)
  {
    if key !in items then (None, items)
    else
      match items[key]
      case Blank => (None, items)
      case Unparseable => (None, items - {key})
      case NotAnObject => (None, items - {key})
      case Entry(value, expiresAt) =>
        if expiresAt.None? || expiresAt.value == 0 || now > expiresAt.value then (None, items - {key})
        else (value, items)
  }

  /** Every stored item is blank, stale or live, and only one of them. */
  lemma ItemCases<V>(item: Item<V>, now: int)
    ensures item.Blank? || Stale(item, now) || Live(item, now)
    ensures !(Stale(item, now) && Live(item, now)) && !(item.Blank? && (Stale(item, now) || Live(item, now)))
  {
  }

  /** `cacheSet` as a value: the entry with its expiry, under `key` only. */
  function Stored<V>(items: Store<V>, key: string, value: V, ttlMinutes: int, now: int): (r: Store<V>)
    ensures r.Keys == items.Keys + {key}
    ensures r[key] == Entry(Some(value), Some(now + ttlMinutes * MillisPerMinute))
    ensures forall k | k in items && k != key :: r[k] == items[k]
  {
    items[key := Entry(Some(value), Some(now + ttlMinutes * MillisPerMinute))]
  }

  /** `startsWith`. */
  predicate StartsWith(s: string, prefix: string) {
    |prefix| <= |s| && s[..|prefix|] == prefix
  }

  /** `cacheClearByPrefix` as a value: exactly the keys with the prefix are gone. */
  function WithoutPrefix<V>(items: Store<V>, prefix: string): (r: Store<V>)
    ensures forall k :: k in r <==> k in items && !StartsWith(k, prefix)
    ensures forall k | k in r :: r[k] == items[k]
  {
    map k | k in items && !StartsWith(k, prefix) :: items[k]
  }

  /** The storage and the operations on it. */
  class LocalCache<V(==)> {
    var items: Store<V>

    constructor(initial: Store<V>)
      ensures items == initial
    {
      items := initial;
    }

    /** `cacheGet`. */
    method Get(key: string, now: int) returns (r: Option<V>)
      modifies this
      ensures (r, items) == Lookup(old(items), key, now)
    {
      if key !in items || items[key].Blank? {
        return None;
      }
      var item := items[key];
      if !item.Entry? || item.expiresAt.None? || item.expiresAt.value == 0 || now > item.expiresAt.value {
        items := items - {key};
        return None;
      }
      r := item.value;
    }

    /** `cacheSet`: the entry expires `ttlMinutes` minutes from `now`. */
    method Set(key: string, value: V, ttlMinutes: int, now: int)
      modifies this
      ensures items == Stored(old(items), key, value, ttlMinutes, now)
    {
      items := items[key := Entry(Some(value), Some(now + ttlMinutes * MillisPerMinute))];
    }

    /** `cacheRemove`. */
    method Remove(key: string)
      modifies this
      ensures items == old(items) - {key}
    {
      items := items - {key};
    }

    /** `cacheClearByPrefix`: walk a snapshot of the keys, deleting those with the prefix. */
    method ClearByPrefix(prefix: string)
      modifies this
      ensures items == WithoutPrefix(old(items), prefix)
    {
      var keys := items.Keys;
      ghost var start := items;
      while keys != {}
        invariant keys <= start.Keys
        invariant forall k :: k in items <==> k in start && (k in keys || !StartsWith(k, prefix))
        invariant forall k | k in items :: items[k] == start[k]
        decreases keys
      {
        var key :| key in keys;
        if StartsWith(key, prefix) {
          items := items - {key};
        }
        keys := keys - {key};
      }
    }

    /** `cacheClearAll`: every key under the cache prefix. */
    method ClearAll()
      modifies this
      ensures items == WithoutPrefix(old(items), CachePrefix)
    {
      ClearByPrefix(CachePrefix);
    }
  }

  /** A value just stored is read back until it expires, provided its expiry is not 0. */
  lemma SetThenGet<V>(items: Store<V>, key: string, value: V, ttlMinutes: int, now: int, later: int)
    requires later <= now + ttlMinutes * MillisPerMinute && now + ttlMinutes * MillisPerMinute != 0
    ensures Lookup(Stored(items, key, value, ttlMinutes, now), key, later) ==
      (Some(value), Stored(items, key, value, ttlMinutes, now))
  {
  }

  /** After its expiry the stored value is gone, and so is its key. */
  lemma SetThenExpire<V>(items: Store<V>, key: string, value: V, ttlMinutes: int, now: int, later: int)
    requires later > now + ttlMinutes * MillisPerMinute
    ensures Lookup(Stored(items, key, value, ttlMinutes, now), key, later) == (None, items - {key})
  {
    var s := Stored(items, key, value, ttlMinutes, now);
    assert s - {key} == items - {key};
  }

  /** Reading never adds keys or changes the entries it keeps. */
  lemma LookupOnlyRemoves<V>(items: Store<V>, key: string, now: int)
    ensures var after := Lookup(items, key, now).1;
      after.Keys <= items.Keys && forall k | k in after :: after[k] == items[k]
  {
  }
}
