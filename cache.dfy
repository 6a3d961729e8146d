/** The response cache: an ordered dictionary of entries, least recently
    used first, with a capacity, a time to live per entry and counters of
    hits, misses, evictions and expirations; the key built from a call's
    arguments; and the memoising wrapper. The wall clock is the `now`
    argument and the lock around every method is not modelled. */
module Cache {
  import opened Wrappers
  import opened Pairs
  import opened Text

  const DefaultTtl: int := 3600
  const DefaultMaxSize: int := 1000

  // ---------------------------------------------------------------------
  // Entries

  /** A stored value with its time to live in seconds, the times it was
      made and last read, and how often it was read. */
  datatype CacheEntry<V> = CacheEntry(value: V, ttl: int, createdAt: real, accessedAt: real, accessCount: nat)

  /** CacheEntry(value, ttl) made at time now: `ttl or DEFAULT_TTL`, so an
      absent or zero time to live becomes the default. */
  function NewEntry<V>(value: V, ttl: Option<int>, now: real): (e: CacheEntry<V>)
    ensures e.value == value && e.createdAt == now && e.accessedAt == now && e.accessCount == 0
    ensures e.ttl != 0
    ensures ttl.Some? && ttl.value != 0 ==> e.ttl == ttl.value
    ensures ttl.None? || ttl.value == 0 ==> e.ttl == DefaultTtl
  {
    var t := if ttl.None? || ttl.value == 0 then DefaultTtl else ttl.value;
    CacheEntry(value, t, now, now, 0)
  }

  /** is_expired: more than ttl seconds have passed since the entry was made. */
  predicate Expired<V>(e: CacheEntry<V>, now: real)
  {
    now - e.createdAt > e.ttl as real
  }

  /** access(): the entry read at time now. */
  function Accessed<V>(e: CacheEntry<V>, now: real): (a: CacheEntry<V>)
    ensures a.value == e.value && a.ttl == e.ttl && a.createdAt == e.createdAt
    ensures a.accessedAt == now && a.accessCount == e.accessCount + 1
  {
    e.(accessedAt := now, accessCount := e.accessCount + 1)
  }

  /** A new entry is fresh at the time it is made unless its time to live is
      negative; once expired, an entry stays expired, and reading it does
      not change when it expires. */
  lemma ExpiryFacts<V>(value: V, ttl: Option<int>, e: CacheEntry<V>, now: real, later: real)
    requires now <= later
    ensures Expired(NewEntry(value, ttl, now), now) <==> ttl.Some? && ttl.value < 0
    ensures Expired(e, now) ==> Expired(e, later)
    ensures Expired(Accessed(e, now), later) == Expired(e, later)
  {
  }

  // ---------------------------------------------------------------------
  // The ordered dictionary

  /** The entries in the dictionary's order: least recently used first. */
  type Items<V> = seq<(string, CacheEntry<V>)>

  predicate DistinctKeys<V>(items: Items<V>)
  {
    forall i, j :: 0 <= i < j < |items| ==> items[i].0 != items[j].0
  }

  /** cache[key], None when the key is absent. */
  function Find<V>(items: Items<V>, key: string): (r: Option<CacheEntry<V>>)
    ensures r.None? <==> key !in Firsts(items)
    ensures r.Some? ==> (key, r.value) in items
  {
    if items == [] then None
    else if items[0].0 == key then Some(items[0].1)
    else
      var r := Find(items[1..], key);
      assert Firsts(items) == [items[0].0] + Firsts(items[1..]);
      r
  }

  /** With distinct keys, an entry of the list is the one found for its key. */
  lemma {:induction false} FindAt<V>(items: Items<V>, i: nat)
    requires DistinctKeys(items) && i < |items|
    ensures Find(items, items[i].0) == Some(items[i].1)
    decreases i
  {
    if i > 0 {
      FindAt(items[1..], i - 1);
    }
  }

  /** What deleting key from items leaves: no entry for key, only entries
      of items, distinct keys kept, nothing lost when the key is absent,
      exactly one entry fewer when it is present. */
  ghost predicate Deleted<V>(items: Items<V>, key: string, r: Items<V>)
  {
    && key !in Firsts(r)
    && (forall x :: x in r ==> x in items)
    && (DistinctKeys(items) ==> DistinctKeys(r))
    && (key !in Firsts(items) ==> r == items)
    && (DistinctKeys(items) && key in Firsts(items) ==> |r| == |items| - 1)
  }

  /** del cache[key]: the entries of other keys, in their order. */
  function Without<V>(items: Items<V>, key: string): (r: Items<V>)
    ensures Deleted(items, key, r)
  {
    if items == [] then []
    else
      var rest := Without(items[1..], key);
      var r := if items[0].0 == key then rest else [items[0]] + rest;
      WithoutStep(items, key, rest, r);
      r
  }

  /** One step of the recursion keeps Deleted. */
  lemma {:induction false} WithoutStep<V>(items: Items<V>, key: string, rest: Items<V>, r: Items<V>)
    requires items != [] && Deleted(items[1..], key, rest)
    requires r == if items[0].0 == key then rest else [items[0]] + rest
    ensures Deleted(items, key, r)
  {
    FirstsPrepend(items[0], items[1..]);
    assert items == [items[0]] + items[1..];
    if DistinctKeys(items) {
      DropFirst(items);
    }
    if items[0].0 == key {
      DropStep(items, key, rest);
    } else {
      KeepStep(items, key, rest);
    }
  }

  /** The first entry holds the key: the rest's deletion is the whole one. */
  lemma {:induction false} DropStep<V>(items: Items<V>, key: string, rest: Items<V>)
    requires items != [] && items[0].0 == key && Deleted(items[1..], key, rest)
    requires Firsts(items) == [items[0].0] + Firsts(items[1..])
    requires DistinctKeys(items) ==> items[0].0 !in Firsts(items[1..]) && DistinctKeys(items[1..])
    ensures Deleted(items, key, rest)
  {
    assert forall x :: x in items[1..] ==> x in items;
    assert key in Firsts(items);
  }

  /** The first entry holds another key: it is kept in front. */
  lemma {:induction false} KeepStep<V>(items: Items<V>, key: string, rest: Items<V>)
    requires items != [] && items[0].0 != key && Deleted(items[1..], key, rest)
    requires Firsts(items) == [items[0].0] + Firsts(items[1..])
    requires DistinctKeys(items) ==> items[0].0 !in Firsts(items[1..]) && DistinctKeys(items[1..])
    ensures Deleted(items, key, [items[0]] + rest)
  {
    FirstsPrepend(items[0], rest);
    KeepFrom(items, rest);
    PrependDistinct(items, rest);
    KeepCount(items, key, rest);
  }

  lemma {:induction false} KeepFrom<V>(items: Items<V>, rest: Items<V>)
    requires items != [] && forall x :: x in rest ==> x in items[1..]
    ensures forall x :: x in [items[0]] + rest ==> x in items
  {
    forall x | x in [items[0]] + rest ensures x in items {
      if x != items[0] {
        assert x in items[1..];
      }
    }
  }

  lemma {:induction false} KeepCount<V>(items: Items<V>, key: string, rest: Items<V>)
    requires items != [] && items[0].0 != key && Deleted(items[1..], key, rest)
    requires Firsts(items) == [items[0].0] + Firsts(items[1..])
    requires DistinctKeys(items) ==> DistinctKeys(items[1..])
    ensures key !in Firsts(items) ==> [items[0]] + rest == items
    ensures DistinctKeys(items) && key in Firsts(items) ==> |[items[0]] + rest| == |items| - 1
  {
    if key !in Firsts(items) {
      assert rest == items[1..];
    }
  }

  /** An entry put back in front of entries taken from the rest of the
      list keeps the keys distinct. */
  lemma {:induction false} PrependDistinct<V>(items: Items<V>, rest: Items<V>)
    requires items != []
    requires DistinctKeys(items[1..]) ==> DistinctKeys(rest)
    requires forall x :: x in rest ==> x in items[1..]
    ensures DistinctKeys(items) ==> DistinctKeys([items[0]] + rest)
  {
    if DistinctKeys(items) {
      DropFirst(items);
      forall j | 0 <= j < |rest| ensures rest[j].0 != items[0].0 {
        assert rest[j] in items[1..];
        var m :| 0 <= m < |items[1..]| && items[1..][m] == rest[j];
        assert Firsts(items[1..])[m] == rest[j].0;
      }
    }
  }

  /** Deleting a key keeps the entry of every other key. */
  lemma {:induction false} WithoutKeepsOthers<V>(items: Items<V>, key: string, k: string)
    requires k != key
    ensures Find(Without(items, key), k) == Find(items, k)
    decreases |items|
  {
    if items != [] {
      WithoutKeepsOthers(items[1..], key, k);
    }
  }

  /** Appending an entry for a key not present keeps the keys distinct. */
  lemma AppendDistinct<V>(items: Items<V>, key: string, e: CacheEntry<V>)
    requires DistinctKeys(items) && key !in Firsts(items)
    ensures DistinctKeys(items + [(key, e)])
    ensures Find(items + [(key, e)], key) == Some(e)
  {
    var r := items + [(key, e)];
    forall i | 0 <= i < |items| ensures items[i].0 != key {
      assert Firsts(items)[i] == items[i].0;
    }
    FindAt(r, |items|);
  }

  /** Dropping the first entry keeps the keys distinct and loses exactly
      that key. */
  lemma DropFirst<V>(items: Items<V>)
    requires DistinctKeys(items) && items != []
    ensures DistinctKeys(items[1..])
    ensures items[0].0 !in Firsts(items[1..])
    ensures forall k :: k != items[0].0 ==> Find(items[1..], k) == Find(items, k)
  {
  }

  // ---------------------------------------------------------------------
  // The operations on the ordered dictionary

  /** What get does with the dictionary. */
  datatype GetOutcome<V> = Missed | ExpiredEntry | Hit(value: V)

  /** get(key) at time now: the outcome and the dictionary afterwards. An
      expired entry is deleted; a live one is read and moved to the end. */
  function GetStep<V>(items: Items<V>, key: string, now: real): (GetOutcome<V>, Items<V>)
  {
    match Find(items, key)
    case None => (Missed, items)
    case Some(e) =>
      if Expired(e, now) then (ExpiredEntry, Without(items, key))
      else (Hit(e.value), Without(items, key) + [(key, Accessed(e, now))])
  }

  /** A miss leaves the dictionary alone; whatever get does, the keys stay
      distinct and every other key keeps its entry. */
  lemma GetStepFacts<V>(items: Items<V>, key: string, now: real)
    requires DistinctKeys(items)
    ensures GetStep(items, key, now).0.Missed? <==> key !in Firsts(items)
    ensures GetStep(items, key, now).0.Missed? ==> GetStep(items, key, now).1 == items
    ensures DistinctKeys(GetStep(items, key, now).1)
    ensures forall k :: k != key ==> Find(GetStep(items, key, now).1, k) == Find(items, k)
  {
    var after := GetStep(items, key, now).1;
    forall k | k != key ensures Find(after, k) == Find(items, k) {
      WithoutKeepsOthers(items, key, k);
      var found := Find(items, key);
      if found.Some? && !Expired(found.value, now) {
        FindAppend(Without(items, key), key, Accessed(found.value, now), k);
      }
    }
    var found := Find(items, key);
    if found.Some? && !Expired(found.value, now) {
      AppendDistinct(Without(items, key), key, Accessed(found.value, now));
    }
  }

  /** An expired entry is reported and deleted, and only it. */
  lemma GetExpired<V>(items: Items<V>, key: string, now: real)
    requires DistinctKeys(items) && key in Firsts(items) && Expired(Find(items, key).value, now)
    ensures GetStep(items, key, now).0 == ExpiredEntry
    ensures key !in Firsts(GetStep(items, key, now).1)
    ensures |GetStep(items, key, now).1| == |items| - 1
  {
  }

  /** A live entry returns its value and becomes the most recently used,
      read once more at time now. */
  lemma GetHit<V>(items: Items<V>, key: string, now: real)
    requires DistinctKeys(items) && key in Firsts(items) && !Expired(Find(items, key).value, now)
    ensures GetStep(items, key, now).0 == Hit(Find(items, key).value.value)
    ensures var after := GetStep(items, key, now).1;
      |after| == |items| && after[|after| - 1] == (key, Accessed(Find(items, key).value, now))
  {
  }

  /** Looking up another key ignores an appended entry. */
  lemma {:induction false} FindAppend<V>(items: Items<V>, key: string, e: CacheEntry<V>, k: string)
    requires k != key
    ensures Find(items + [(key, e)], k) == Find(items, k)
    decreases |items|
  {
    if items != [] {
      assert (items + [(key, e)])[1..] == items[1..] + [(key, e)];
      FindAppend(items[1..], key, e, k);
    }
  }

  /** What set does with the dictionary. */
  datatype SetOutcome<V> = SetOutcome(items: Items<V>, evicted: bool, raised: bool)

  /** set(key, e): the key's old entry is deleted; when the dictionary is
      still at capacity its first entry is evicted (popitem on an empty
      dictionary, possible only when max_size <= 0, raises KeyError with
      the old entry already deleted); then the entry is appended. */
  function SetStep<V>(items: Items<V>, maxSize: int, key: string, e: CacheEntry<V>): SetOutcome<V>
  {
    var rest := Without(items, key);
    if |rest| >= maxSize then
      if rest == [] then SetOutcome(rest, false, true)
      else SetOutcome(rest[1..] + [(key, e)], true, false)
    else SetOutcome(rest + [(key, e)], false, false)
  }

  /** set keeps the keys distinct, and within a positive capacity. */
  lemma {:induction false} SetKeepsValid<V>(items: Items<V>, maxSize: int, key: string, e: CacheEntry<V>)
    requires DistinctKeys(items) && (maxSize >= 1 ==> |items| <= maxSize)
    ensures var s := SetStep(items, maxSize, key, e);
      DistinctKeys(s.items) && (maxSize >= 1 ==> |s.items| <= maxSize)
  {
    var rest := Without(items, key);
    if |rest| >= maxSize {
      if rest != [] {
        DropFirst(rest);
        AppendDistinct(rest[1..], key, e);
      }
    } else {
      AppendDistinct(rest, key, e);
    }
  }

  /** With a capacity of at least one, set never raises, keeps the keys
      distinct and within capacity, and leaves the key as the most
      recently used entry holding e. */
  lemma SetMakesMostRecent<V>(items: Items<V>, maxSize: int, key: string, e: CacheEntry<V>)
    requires DistinctKeys(items) && 1 <= maxSize && |items| <= maxSize
    ensures var s := SetStep(items, maxSize, key, e);
      !s.raised && DistinctKeys(s.items) && |s.items| <= maxSize &&
      s.items != [] && s.items[|s.items| - 1] == (key, e) && Find(s.items, key) == Some(e)
  {
    var rest := Without(items, key);
    if |rest| >= maxSize {
      DropFirst(rest);
      AppendDistinct(rest[1..], key, e);
    } else {
      AppendDistinct(rest, key, e);
    }
  }

  /** A new key on a full dictionary evicts exactly the least recently
      used entry; rewriting a present key never evicts. */
  lemma SetEvictions<V>(items: Items<V>, maxSize: int, key: string, e: CacheEntry<V>)
    requires DistinctKeys(items) && 1 <= maxSize && |items| <= maxSize
    ensures key !in Firsts(items) && |items| == maxSize ==>
      SetStep(items, maxSize, key, e) == SetOutcome(items[1..] + [(key, e)], true, false)
    ensures key in Firsts(items) ==>
      SetStep(items, maxSize, key, e) == SetOutcome(Without(items, key) + [(key, e)], false, false)
  {
  }

  /** Every entry set leaves other than the evicted one and the key itself
      is kept with its value. */
  lemma SetKeepsOthers<V>(items: Items<V>, maxSize: int, key: string, e: CacheEntry<V>, k: string)
    requires DistinctKeys(items) && 1 <= maxSize && |items| <= maxSize && k != key
    requires var s := SetStep(items, maxSize, key, e); !(s.evicted && k == Without(items, key)[0].0)
    ensures Find(SetStep(items, maxSize, key, e).items, k) == Find(items, k)
  {
    var rest := Without(items, key);
    WithoutKeepsOthers(items, key, k);
    if |rest| >= maxSize {
      DropFirst(rest);
      FindAppend(rest[1..], key, e, k);
    } else {
      FindAppend(rest, key, e, k);
    }
  }

  // ---------------------------------------------------------------------
  // Statistics

  /** hits / (hits + misses) * 100, and 0 before any request. */
  function HitRate(hits: nat, misses: nat): (r: real)
    ensures 0.0 <= r <= 100.0
    ensures hits + misses == 0 ==> r == 0.0
    ensures hits + misses > 0 ==> r * (hits + misses) as real == 100.0 * hits as real
  {
    if hits + misses > 0 then hits as real / (hits + misses) as real * 100.0 else 0.0
  }

  /** What get_stats returns, the rate as a number rather than text. */
  datatype CacheStats = CacheStats(size: nat, maxSize: int, hits: nat, misses: nat, evictions: nat,
                                   expirations: nat, hitRate: real)

  // ---------------------------------------------------------------------
  // The cache object

  class InMemoryCache<V> {
    const maxSize: int
    var items: Items<V>
    var hits: nat
    var misses: nat
    var evictions: nat
    var expirations: nat

    /** The keys are distinct, and within capacity when it is positive. */
    ghost predicate Valid()
      reads this
    {
      DistinctKeys(items) && (maxSize >= 1 ==> |items| <= maxSize)
    }

    constructor (maxSize: int)
      ensures Valid() && this.maxSize == maxSize && items == []
      ensures hits == 0 && misses == 0 && evictions == 0 && expirations == 0
    {
      this.maxSize := maxSize;
      items := [];
      hits, misses, evictions, expirations := 0, 0, 0, 0;
    }

    /** get: a miss counts in misses, an expired entry is deleted and counts
        in expirations, a hit is moved to the end, read, and counts in hits. */
    method Get(key: string, now: real) returns (r: Option<V>)
      requires Valid()
      modifies this
      ensures Valid()
      ensures var (out, after) := GetStep(old(items), key, now);
        items == after && (r.Some? <==> out.Hit?) && (out.Hit? ==> r.value == out.value) &&
        hits == old(hits) + (if out.Hit? then 1 else 0) &&
        misses == old(misses) + (if out.Missed? then 1 else 0) &&
        expirations == old(expirations) + (if out.ExpiredEntry? then 1 else 0) &&
        evictions == old(evictions)
    {
      GetStepFacts(items, key, now);
      var found := Find(items, key);
      if found.None? {
        misses := misses + 1;
        return None;
      }
      var entry := found.value;
      if Expired(entry, now) {
        items := Without(items, key);
        expirations := expirations + 1;
        return None;
      }
      items := Without(items, key) + [(key, entry)];
      hits := hits + 1;
      items := items[..|items| - 1] + [(key, Accessed(entry, now))];
      r := Some(entry.value);
    }

    /** set: the entry made at time now becomes the most recently used; an
        eviction counts in evictions. raised is the KeyError of popitem on
        an empty dictionary. */
    method Set(key: string, value: V, ttl: Option<int>, now: real) returns (raised: bool)
      requires Valid()
      modifies this
      ensures Valid()
      ensures var s := SetStep(old(items), maxSize, key, NewEntry(value, ttl, now));
        items == s.items && raised == s.raised &&
        evictions == old(evictions) + (if s.evicted then 1 else 0)
      ensures hits == old(hits) && misses == old(misses) && expirations == old(expirations)
    {
      var entry := NewEntry(value, ttl, now);
      SetKeepsValid(items, maxSize, key, entry);
      if key in Firsts(items) {
        items := Without(items, key);
      }
      assert items == Without(old(items), key);
      if |items| >= maxSize {
        if items == [] {
          return true;
        }
        items := items[1..];
        evictions := evictions + 1;
      }
      items := items + [(key, entry)];
      raised := false;
    }

    /** delete: True exactly when the key was present; only that key goes. */
    method Delete(key: string) returns (deleted: bool)
      requires Valid()
      modifies this`items
      ensures Valid()
      ensures deleted == (key in Firsts(old(items))) && items == Without(old(items), key)
    {
      deleted := key in Firsts(items);
      if deleted {
        items := Without(items, key);
      }
    }

    /** clear: no entries; the counters are kept. */
    method Clear()
      requires Valid()
      modifies this`items
      ensures Valid() && items == []
    {
      items := [];
    }

    /** get_stats. */
    method GetStats() returns (s: CacheStats)
      ensures s.size == |items| && s.maxSize == maxSize
      ensures s.hits == hits && s.misses == misses && s.evictions == evictions && s.expirations == expirations
      ensures 0.0 <= s.hitRate <= 100.0
      ensures hits + misses == 0 ==> s.hitRate == 0.0
      ensures hits + misses > 0 ==> s.hitRate * (hits + misses) as real == 100.0 * hits as real
    {
      s := CacheStats(|items|, maxSize, hits, misses, evictions, expirations, HitRate(hits, misses));
    }

    /** reset_stats: every counter back to zero, the entries kept. */
    method ResetStats()
      modifies this`hits, this`misses, this`evictions, this`expirations
      ensures hits == 0 && misses == 0 && evictions == 0 && expirations == 0
    {
      hits, misses, evictions, expirations := 0, 0, 0, 0;
    }
  }

  // ---------------------------------------------------------------------
  // Keys of calls

  /** A keyword argument's value as the key shows it: str(v), or for a list
      or dict json.dumps(v, sort_keys=True), both computed by the caller. */
  datatype Arg = Plain(text: string) | Structured(json: string)

  /** The key part of one keyword argument: name=value. */
  function KeywordPart(kw: (string, Arg)): string
  {
    kw.0 + "=" + match kw.1 case Plain(t) => t case Structured(j) => j
  }

  predicate DistinctNames(kws: seq<(string, Arg)>)
  {
    forall i, j :: 0 <= i < j < |kws| ==> kws[i].0 != kws[j].0
  }

  predicate ByName(kws: seq<(string, Arg)>)
  {
    forall i, j :: 0 <= i < j < |kws| ==> StrLess(kws[i].0, kws[j].0)
  }

  /** kw placed in a list ordered by name. */
  function InsertByName(kw: (string, Arg), kws: seq<(string, Arg)>): (r: seq<(string, Arg)>)
    requires ByName(kws) && forall x :: x in kws ==> x.0 != kw.0
    ensures ByName(r) && multiset(r) == multiset(kws) + multiset{kw}
  {
    if kws == [] then [kw]
    else if StrLess(kw.0, kws[0].0) then
      NameBefore(kw, kws);
      [kw] + kws
    else
      assert StrLess(kws[0].0, kw.0) by { StrLessTotal(kw.0, kws[0].0); }
      var rest := InsertByName(kw, kws[1..]);
      NameBehind(kw, kws, rest);
      [kws[0]] + rest
  }

  /** A name below the first of a list ordered by name goes in front. */
  lemma {:induction false} NameBefore(kw: (string, Arg), kws: seq<(string, Arg)>)
    requires kws != [] && ByName(kws) && StrLess(kw.0, kws[0].0)
    ensures ByName([kw] + kws)
  {
    forall j | 0 <= j < |kws| ensures StrLess(kw.0, kws[j].0) {
      if j > 0 { StrLessTransitive(kw.0, kws[0].0, kws[j].0); }
    }
    var r := [kw] + kws;
    forall i, j | 0 <= i < j < |r| ensures StrLess(r[i].0, r[j].0) {
      assert r[j] == kws[j - 1];
      if i > 0 { assert r[i] == kws[i - 1]; }
    }
  }

  /** A name above the first of a list ordered by name goes behind it. */
  lemma {:induction false} NameBehind(kw: (string, Arg), kws: seq<(string, Arg)>, rest: seq<(string, Arg)>)
    requires kws != [] && ByName(kws) && StrLess(kws[0].0, kw.0)
    requires ByName(rest) && multiset(rest) == multiset(kws[1..]) + multiset{kw}
    ensures ByName([kws[0]] + rest) && multiset([kws[0]] + rest) == multiset(kws) + multiset{kw}
  {
    assert kws == [kws[0]] + kws[1..];
    assert multiset([kws[0]] + rest) == multiset{kws[0]} + multiset(rest);
    forall y | y in rest ensures StrLess(kws[0].0, y.0) {
      assert y in multiset(rest);
      if y != kw {
        assert y in multiset(kws[1..]);
        var j :| 0 <= j < |kws[1..]| && kws[1..][j] == y;
        assert kws[j + 1] == y;
      }
    }
    var r := [kws[0]] + rest;
    forall i, j | 0 <= i < j < |r| ensures StrLess(r[i].0, r[j].0) {
      assert r[j] == rest[j - 1] && rest[j - 1] in rest;
      if i > 0 { assert r[i] == rest[i - 1]; }
    }
  }

  /** sorted(kwargs.items()): the keyword arguments ordered by name. */
  function SortByName(kws: seq<(string, Arg)>): (r: seq<(string, Arg)>)
    requires DistinctNames(kws)
    ensures ByName(r) && multiset(r) == multiset(kws)
  {
    if kws == [] then []
    else
      var init := kws[..|kws| - 1];
      assert kws == init + [kws[|kws| - 1]];
      var sorted := SortByName(init);
      assert forall x :: x in sorted ==> x.0 != kws[|kws| - 1].0 by {
        forall x | x in sorted ensures x.0 != kws[|kws| - 1].0 {
          assert x in multiset(init);
          var j :| 0 <= j < |init| && init[j] == x;
        }
      }
      InsertByName(kws[|kws| - 1], sorted)
  }

  /** The first entry of a list ordered by name precedes every other. */
  lemma HeadLeast(s: seq<(string, Arg)>, x: (string, Arg))
    requires ByName(s) && x in s && x != s[0]
    ensures StrLess(s[0].0, x.0)
  {
    var i :| 0 <= i < |s| && s[i] == x;
  }

  /** Removing the same first entry from two lists with equal entries
      leaves lists with equal entries. */
  lemma TailsAgree(a: seq<(string, Arg)>, b: seq<(string, Arg)>)
    requires a != [] && b != [] && a[0] == b[0] && multiset(a) == multiset(b)
    ensures multiset(a[1..]) == multiset(b[1..])
  {
    assert a == [a[0]] + a[1..] && b == [b[0]] + b[1..];
    assert multiset(a[1..]) == multiset(a) - multiset{a[0]};
    assert multiset(b[1..]) == multiset(b) - multiset{b[0]};
  }

  /** Two lists ordered by name with the same entries are the same list. */
  lemma {:induction false} ByNameUnique(a: seq<(string, Arg)>, b: seq<(string, Arg)>)
    requires ByName(a) && ByName(b) && multiset(a) == multiset(b)
    ensures a == b
    decreases |a|
  {
    if a != [] {
      assert |b| == |a| by { assert |multiset(b)| == |multiset(a)|; }
      assert a[0] in multiset(b) && b[0] in multiset(a);
      if a[0] != b[0] {
        HeadLeast(b, a[0]);
        HeadLeast(a, b[0]);
        StrLessAsymmetric(a[0].0, b[0].0);
      }
      TailsAgree(a, b);
      ByNameUnique(a[1..], b[1..]);
      assert a == [a[0]] + a[1..] && b == [b[0]] + b[1..];
    }
  }

  /** cache_key(*args, **kwargs): the positional parts first, then the
      keyword parts ordered by name, joined with "|". */
  function CacheKey(args: seq<string>, kws: seq<(string, Arg)>): (key: string)
    requires DistinctNames(kws)
  {
    var sorted := SortByName(kws);
    Join(args + seq(|sorted|, i requires 0 <= i < |sorted| => KeywordPart(sorted[i])), "|")
  }

  /** The key does not depend on the order the keyword arguments came in. */
  lemma CacheKeyOrderFree(args: seq<string>, a: seq<(string, Arg)>, b: seq<(string, Arg)>)
    requires DistinctNames(a) && DistinctNames(b) && multiset(a) == multiset(b)
    ensures CacheKey(args, a) == CacheKey(args, b)
  {
    ByNameUnique(SortByName(a), SortByName(b));
  }

  /** The key of a call with only positional arguments is those arguments
      joined, and a call without arguments has the empty key. */
  lemma CacheKeyPositional(args: seq<string>)
    ensures CacheKey(args, []) == Join(args, "|")
    ensures CacheKey([], []) == ""
  {
    assert args + [] == args;
  }

  /** The key the wrapper stores a call under. */
  function CallKey(name: string, args: seq<string>, kws: seq<(string, Arg)>): string
    requires DistinctNames(kws)
  {
    name + ":" + CacheKey(args, kws)
  }

  // ---------------------------------------------------------------------
  // The memoising wrapper

  /** cached(ttl)(func) called with args and kwargs at time now: a stored
      value that is not None is returned; otherwise `computed`, the value of
      func(*args, **kwargs), is stored and returned. The counters move as
      the get and the set it performs move them. raised is the KeyError of a
      set on a cache of capacity zero or less. */
  method Cached<R>(cache: InMemoryCache<Option<R>>, name: string, args: seq<string>, kws: seq<(string, Arg)>,
                   ttl: Option<int>, now: real, computed: Option<R>)
    returns (r: Option<R>, raised: bool)
    requires cache.Valid() && DistinctNames(kws)
    modifies cache
    ensures cache.Valid()
    ensures var key := CallKey(name, args, kws);
      var (out, after) := GetStep(old(cache.items), key, now);
      if out.Hit? && out.value.Some? then
        r == out.value && !raised && cache.items == after && cache.hits == old(cache.hits) + 1 &&
        cache.misses == old(cache.misses) && cache.expirations == old(cache.expirations) &&
        cache.evictions == old(cache.evictions)
      else
        r == computed &&
        var s := SetStep(after, cache.maxSize, key, NewEntry(computed, ttl, now));
        cache.items == s.items && raised == s.raised &&
        cache.hits == old(cache.hits) + (if out.Hit? then 1 else 0) &&
        cache.misses == old(cache.misses) + (if out.Missed? then 1 else 0) &&
        cache.expirations == old(cache.expirations) + (if out.ExpiredEntry? then 1 else 0) &&
        cache.evictions == old(cache.evictions) + (if s.evicted then 1 else 0)
  {
    var key := CallKey(name, args, kws);
    var stored := cache.Get(key, now);
    if stored.Some? && stored.value.Some? {
      return stored.value, false;
    }
    raised := cache.Set(key, computed, ttl, now);
    r := computed;
  }

  /** A value the wrapper stores is returned by the next call with the same
      arguments before it expires, whatever the order of the keywords. */
  lemma CachedValueReturned<R>(items: Items<Option<R>>, maxSize: int, name: string, args: seq<string>,
                               a: seq<(string, Arg)>, b: seq<(string, Arg)>, x: R, ttl: Option<int>, now: real, later: real)
    requires DistinctKeys(items) && 1 <= maxSize && |items| <= maxSize
    requires DistinctNames(a) && DistinctNames(b) && multiset(a) == multiset(b)
    requires now <= later && !Expired(NewEntry(Some(x), ttl, now), later)
    ensures var stored := SetStep(items, maxSize, CallKey(name, args, a), NewEntry(Some(x), ttl, now)).items;
      GetStep(stored, CallKey(name, args, b), later).0 == Hit(Some(x))
  {
    CacheKeyOrderFree(args, a, b);
    SetMakesMostRecent(items, maxSize, CallKey(name, args, a), NewEntry(Some(x), ttl, now));
  }

  /** wrapper.cache_clear as written: deletes the key name + ":" only. */
  method CacheClearAsWritten<R>(cache: InMemoryCache<R>, name: string) returns (deleted: bool)
    requires cache.Valid()
    modifies cache`items
    ensures cache.Valid()
    ensures deleted == (name + ":" in Firsts(old(cache.items))) && cache.items == Without(old(cache.items), name + ":")
  {
    deleted := cache.Delete(name + ":");
  }

  /** The key cache_clear deletes is that of a call without arguments, and
      no call with a positional argument is stored under it: such entries
      survive cache_clear. */
  lemma CacheClearMissesCalls(name: string, arg: string, rest: seq<string>, kws: seq<(string, Arg)>)
    requires DistinctNames(kws)
    ensures CallKey(name, [], []) == name + ":"
    ensures CallKey(name, [arg] + rest, kws) != name + ":" || (arg == "" && rest == [] && kws == [])
  {
    CacheKeyPositional([]);
    var sorted := SortByName(kws);
    var parts := [arg] + rest + seq(|sorted|, i requires 0 <= i < |sorted| => KeywordPart(sorted[i]));
    if |parts| == 1 {
      assert Join(parts, "|") == arg;
      if arg == "" && |sorted| == 0 {
        assert multiset(kws) == multiset{};
      }
    } else {
      assert Join(parts, "|") == parts[0] + "|" + Join(parts[1..], "|");
      assert |CallKey(name, [arg] + rest, kws)| > |name + ":"|;
    }
  }

  /** The entries whose key starts with prefix dropped, the rest in order. */
  function WithoutPrefix<V>(items: Items<V>, prefix: string): (r: Items<V>)
    ensures forall x :: x in r ==> x in items && !StartsWith(x.0, prefix)
    ensures forall x :: x in items && !StartsWith(x.0, prefix) ==> x in r
    ensures DistinctKeys(items) ==> DistinctKeys(r)
    ensures |r| <= |items|
  {
    if items == [] then []
    else
      var rest := WithoutPrefix(items[1..], prefix);
      if StartsWith(items[0].0, prefix) then rest
      else
        assert DistinctKeys(items) ==> DistinctKeys([items[0]] + rest) by {
          if DistinctKeys(items) {
            forall j | 0 <= j < |rest| ensures rest[j].0 != items[0].0 {
              assert rest[j] in items[1..];
              var m :| 0 <= m < |items[1..]| && items[1..][m] == rest[j];
              assert items[m + 1] == rest[j];
            }
          }
        }
        [items[0]] + rest
  }

  predicate StartsWith(s: string, prefix: string)
  {
    |prefix| <= |s| && s[..|prefix|] == prefix
  }

  /** cache_clear as evidently intended: every entry stored for the
      function goes, whatever its arguments, and nothing else does. */
  method CacheClear<R>(cache: InMemoryCache<R>, name: string)
    requires cache.Valid()
    modifies cache`items
    ensures cache.Valid()
    ensures cache.items == WithoutPrefix(old(cache.items), name + ":")
    ensures forall args, kws :: DistinctNames(kws) ==> CallKey(name, args, kws) !in Firsts(cache.items)
  {
    cache.items := WithoutPrefix(cache.items, name + ":");
    forall args, kws | DistinctNames(kws) ensures CallKey(name, args, kws) !in Firsts(cache.items) {
      var key := CallKey(name, args, kws);
      assert StartsWith(key, name + ":") by {
        assert key[..|name + ":"|] == name + ":";
      }
    }
  }
}
