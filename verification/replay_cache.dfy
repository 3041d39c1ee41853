// The replay cache for reasoning items: one bounded map with sliding expiry that evicts
// its oldest entries in bulk, against a plain timestamped record of each key.
module ReplayCache {
  import opened Ordering
  import opened Text

  datatype Entry = Entry(items: seq<bytes>, at: int)

  type Entries = map<string, Entry>

  // Nanoseconds.
  const TTL: int := 3600 * 1_000_000_000
  const MAX_ENTRIES := 10240
  const EVICT_BATCH := 128

  const NUL := "\0"
  const KEY_HEAD := "codex-reasoning-replay" + NUL

  // codexReasoningReplayCacheKey
  function CacheKey(model: string, session: string): string
  {
    var m, s := TrimSpace(model), TrimSpace(session);
    if m == "" || s == "" then "" else KEY_HEAD + m + NUL + s
  }

  // normalizeCodexReasoningReplayItems over any way to normalise one item
  function Normalized(normal: bytes -> Option<bytes>, items: seq<bytes>): seq<bytes>
  {
    if |items| == 0 then []
    else
      var front := Normalized(normal, items[..|items| - 1]);
      match normal(items[|items| - 1]) case None => front case Some(item) => front + [item]
  }

  // out is what normal makes of the items that it accepts, in the order of the items.
  ghost predicate KeptInOrder(normal: bytes -> Option<bytes>, items: seq<bytes>, out: seq<bytes>)
  {
    exists at: seq<nat> :: KeptAt(normal, items, out, at)
  }

  predicate KeptAt(normal: bytes -> Option<bytes>, items: seq<bytes>, out: seq<bytes>, at: seq<nat>)
  {
    && Rising(at, |items|) && |at| == |out|
    && (forall i :: 0 <= i < |items| ==> (i in at <==> normal(items[i]).Some?))
    && forall k :: 0 <= k < |out| ==> normal(items[at[k]]) == Some(out[k])
  }

  lemma KeptNext(normal: bytes -> Option<bytes>, front: seq<bytes>, item: bytes, out: seq<bytes>, at: seq<nat>)
    requires KeptAt(normal, front, out, at)
    ensures match normal(item)
            case None => KeptAt(normal, front + [item], out, at)
            case Some(v) => KeptAt(normal, front + [item], out + [v], at + [|front|])
  {
    var n, all := |front|, front + [item];
    RisingMore(at, n);
    assert forall k :: 0 <= k < |at| ==> all[at[k]] == front[at[k]];
    forall i | 0 <= i < n ensures (i in at + [n] <==> i in at) && all[i] == front[i] {}
    assert n !in at && n in at + [n] && all[n] == item;
  }

  lemma {:induction false} NormalizedKeeps(normal: bytes -> Option<bytes>, items: seq<bytes>) returns (at: seq<nat>)
    ensures KeptAt(normal, items, Normalized(normal, items), at)
    ensures KeptInOrder(normal, items, Normalized(normal, items))
    decreases |items|
  {
    hide KeptAt;
    if |items| == 0 {
      at := [];
      NothingKept(normal);
    } else {
      var n := |items| - 1;
      at := NormalizedKeeps(normal, items[..n]);
      assert items == items[..n] + [items[n]];
      KeptNext(normal, items[..n], items[n], Normalized(normal, items[..n]), at);
      at := if normal(items[n]).Some? then at + [n] else at;
    }
  }

  lemma NothingKept(normal: bytes -> Option<bytes>)
    ensures KeptAt(normal, [], [], [])
  {
  }

  // Something is left exactly when some item is accepted.
  lemma SomethingKept(normal: bytes -> Option<bytes>, items: seq<bytes>)
    ensures |Normalized(normal, items)| > 0 <==> exists i :: 0 <= i < |items| && normal(items[i]).Some?
  {
    var at := NormalizedKeeps(normal, items);
    if i :| 0 <= i < |items| && normal(items[i]).Some? {
      assert i in at;
    }
  }

  predicate Live(e: Entry, now: int)
  {
    now - e.at <= TTL
  }

  // ---- Eviction ----------------------------------------------------------------------------

  // A choice of `count` entries such that every other entry is at least as recent as each
  // of them. Entries of the same age may go in any order.
  ghost predicate Oldest(b: Entries, evicted: set<string>, count: nat)
  {
    && evicted <= b.Keys && |evicted| == count
    && forall k, e :: k in b && k !in evicted && e in evicted ==> b[e].at <= b[k].at
  }

  // What one eviction takes: 128 entries, none of them younger than one that stays.
  ghost predicate Batch(b: Entries, evicted: set<string>)
  {
    && evicted <= b.Keys && |evicted| == 128
    && forall k, e :: k in b && k !in evicted && e in evicted ==> b[e].at <= b[k].at
  }

  // Only the ages matter for what is evicted.
  lemma SameAges(b: Entries, key: string, e: Entry, f: Entry, evicted: set<string>)
    requires e.at == f.at
    ensures |b[key := e]| == |b[key := f]|
    ensures Oldest(b[key := e], evicted, EVICT_BATCH) ==> Batch(b[key := f], evicted)
  {
    assert b[key := e].Keys == b.Keys + {key} == b[key := f].Keys;
    assert |b[key := e].Keys| == |b[key := f].Keys|;
  }

  datatype Candidate = Candidate(key: string, at: int)

  // sort.Slice by timestamp; callers rely on the order alone.
  predicate NoLater(a: Candidate, b: Candidate)
  {
    a.at <= b.at
  }

  // The candidates list every entry once.
  ghost predicate Lists(cs: seq<Candidate>, b: Entries)
  {
    && (forall i :: 0 <= i < |cs| ==> cs[i].key in b && cs[i].at == b[cs[i].key].at)
    && DistinctBy(cs, KeyOf)
    && (forall k :: k in b ==> exists i :: 0 <= i < |cs| && cs[i].key == k)
  }

  function KeyOf(c: Candidate): string
  {
    c.key
  }

  lemma {:induction false} DistinctKeySet(cs: seq<Candidate>, n: nat)
    requires n <= |cs| && DistinctBy(cs, KeyOf)
    ensures |KeysTo(cs, n)| == n
    decreases n
  {
    if n > 0 {
      DistinctKeySet(cs, n - 1);
      assert KeysTo(cs, n) == KeysTo(cs, n - 1) + {cs[n - 1].key};
    }
  }

  function KeysTo(cs: seq<Candidate>, n: nat): set<string>
    requires n <= |cs|
  {
    set i | 0 <= i < n :: cs[i].key
  }

  // A permutation of a listing is a listing.
  lemma ListsPermuted(cs: seq<Candidate>, sorted: seq<Candidate>, b: Entries)
    requires Lists(cs, b) && multiset(sorted) == multiset(cs)
    ensures Lists(sorted, b)
  {
    Permuted(cs, sorted);
    PermutedDistinct(cs, sorted, KeyOf);
    forall i | 0 <= i < |sorted| ensures sorted[i].key in b && sorted[i].at == b[sorted[i].key].at {
      assert sorted[i] in cs;
    }
    forall k | k in b ensures exists i :: 0 <= i < |sorted| && sorted[i].key == k {
      var i :| 0 <= i < |cs| && cs[i].key == k;
      assert cs[i] in sorted;
    }
  }

  // The first keys of a sorted listing are an oldest choice.
  lemma FirstAreOldest(sorted: seq<Candidate>, b: Entries, count: nat)
    requires Lists(sorted, b) && Ordered(sorted, NoLater) && count <= |sorted|
    ensures Oldest(b, KeysTo(sorted, count), count)
  {
    DistinctKeySet(sorted, count);
    forall k, e | k in b && k !in KeysTo(sorted, count) && e in KeysTo(sorted, count) ensures b[e].at <= b[k].at {
      var i :| 0 <= i < |sorted| && sorted[i].key == k;
      var j :| 0 <= j < count && sorted[j].key == e;
      assert i >= count && NoLater(sorted[j], sorted[i]);
    }
  }

  // ---- What each operation does --------------------------------------------------------------

  function Lookup(b: Entries, key: string): Option<Entry>
  {
    if key in b then Some(b[key]) else None
  }

  function Purged(b: Entries, now: int): Entries
  {
    map k | k in b && Live(b[k], now) :: b[k]
  }

  function AfterGet(b: Entries, key: string, now: int): Entries
  {
    match Lookup(b, key)
    case None => b
    case Some(e) => if Live(e, now) then b[key := Entry(e.items, now)] else b - {key}
  }

  function Found(e: Option<Entry>, now: int): Option<seq<bytes>>
  {
    if e.Some? && Live(e.value, now) then Some(e.value.items) else None
  }

  // A store takes the key and items it ends up with, and the entries that it evicts.
  datatype Op =
    | Store(model: string, session: string, items: seq<bytes>, evicted: set<string>)
    | Get(model: string, session: string)
    | Delete(model: string, session: string)
    | Clear
    | Purge

  datatype Timed = Timed(op: Op, now: int)

  predicate Accepted(normal: bytes -> Option<bytes>, model: string, session: string, items: seq<bytes>)
  {
    CacheKey(model, session) != "" && |Normalized(normal, items)| > 0
  }

  function Stored(normal: bytes -> Option<bytes>, b: Entries, model: string, session: string, items: seq<bytes>,
          now: int): Entries
  {
    b[CacheKey(model, session) := Entry(Normalized(normal, items), now)]
  }

  // A store that keeps something: neither part of the key is blank, and some item is accepted.
  predicate Usable(normal: bytes -> Option<bytes>, op: Op)
  {
    && op.Store? && TrimSpace(op.model) != "" && TrimSpace(op.session) != ""
    && exists i :: 0 <= i < |op.items| && normal(op.items[i]).Some?
  }

  lemma UsableIs(normal: bytes -> Option<bytes>, model: string, session: string, items: seq<bytes>,
          evicted: set<string>)
    ensures Usable(normal, Op.Store(model, session, items, evicted)) <==> Accepted(normal, model, session, items)
    ensures CacheKey(model, session) == "" <==> TrimSpace(model) == "" || TrimSpace(session) == ""
  {
    hide TrimSpace, Normalized;
    SomethingKept(normal, items);
  }

  // A store evicts exactly when it takes the cache over its limit, and then a whole batch.
  ghost predicate Evicts(b: Entries, evicted: set<string>)
  {
    if |b| > MAX_ENTRIES then Oldest(b, evicted, EVICT_BATCH) else evicted == {}
  }

  // What a store leaves, in the entries themselves.
  lemma InsertedIs(b: Entries, key: string, items: seq<bytes>, now: int, evicted: set<string>)
    requires Evicts(b[key := Entry(items, now)], evicted)
    ensures var after, full := b[key := Entry(items, now)] - evicted, b[key := Entry([], now)];
            && after.Keys == b.Keys + {key} - evicted
            && (forall k :: k in after && k != key ==> after[k] == b[k])
            && (key in after ==> after[key] == Entry(items, now))
            && if |full| > 10240 then Batch(full, evicted) else evicted == {}
  {
    hide Batch, Oldest;
    SameAges(b, key, Entry(items, now), Entry([], now), evicted);
    assert b[key := Entry(items, now)].Keys == b.Keys + {key};
  }

  ghost predicate Possible(normal: bytes -> Option<bytes>, b: Entries, op: Op, now: int)
  {
    op.Store? ==>
      var b' := Stored(normal, b, op.model, op.session, op.items, now);
      if Accepted(normal, op.model, op.session, op.items) then Evicts(b', op.evicted) else op.evicted == {}
  }

  function Apply(normal: bytes -> Option<bytes>, b: Entries, op: Op, now: int): Entries
  {
    match op
    case Store(model, session, items, evicted) =>
      if Accepted(normal, model, session, items) then Stored(normal, b, model, session, items, now) - evicted else b
    case Get(model, session) => if CacheKey(model, session) == "" then b else AfterGet(b, CacheKey(model, session), now)
    case Delete(model, session) => if CacheKey(model, session) == "" then b else b - {CacheKey(model, session)}
    case Clear => map[]
    case Purge => Purged(b, now)
  }

  function Answer(b: Entries, model: string, session: string, now: int): Option<seq<bytes>>
  {
    if CacheKey(model, session) == "" then None else Found(Lookup(b, CacheKey(model, session)), now)
  }

  // ---- The cache as the code runs it -----------------------------------------------------------

  class Cache {
    var entries: Entries
    const normal: bytes -> Option<bytes>

    constructor (normal: bytes -> Option<bytes>)
      ensures entries == map[] && this.normal == normal
    {
      entries, this.normal := map[], normal;
    }

    // CacheCodexReasoningReplayItemsBestEffort
    method Store(model: string, session: string, items: seq<bytes>, now: int)
      returns (stored: bool, ghost evicted: set<string>)
      modifies this
      ensures stored <==> Usable(normal, Op.Store(model, session, items, evicted))
      ensures var op := Op.Store(model, session, items, evicted);
              Possible(normal, old(entries), op, now) && entries == Apply(normal, old(entries), op, now)
      ensures stored ==>
                var key := CacheKey(model, session);
                && entries.Keys == old(entries).Keys + {key} - evicted
                && (forall k :: k in entries && k != key ==> entries[k] == old(entries)[k])
                && (key in entries ==> entries[key].at == now && KeptInOrder(normal, items, entries[key].items))
      ensures stored ==>
                var full := old(entries)[CacheKey(model, session) := Entry([], now)];
                if |full| > 10240 then Batch(full, evicted) else evicted == {}
      ensures !stored ==> entries == old(entries) && evicted == {}
    {
      hide CacheKey, Normalized, KeptInOrder, Evicts, Batch, Usable;
      UsableIs(normal, model, session, items, {});
      evicted := {};
      var key := CacheKey(model, session);
      if key == "" {
        return false, {};
      }
      UsableIs(normal, model, session, items, {});
      var normalized := NormalizeItems(items);
      if |normalized| == 0 {
        return false, {};
      }
      evicted := Insert(key, normalized, now);
      InsertedIs(old(entries), key, normalized, now, evicted);
      UsableIs(normal, model, session, items, evicted);
      return true, evicted;
    }

    // The part of it under the mutex.
    method Insert(key: string, items: seq<bytes>, now: int) returns (ghost evicted: set<string>)
      modifies this
      ensures Evicts(old(entries)[key := Entry(items, now)], evicted)
      ensures entries == old(entries)[key := Entry(items, now)] - evicted
    {
      evicted := {};
      entries := entries[key := Entry(items, now)];
      if |entries| > MAX_ENTRIES {
        evicted := EvictOldest(EVICT_BATCH);
      }
    }

    method NormalizeItems(items: seq<bytes>) returns (normalized: seq<bytes>)
      ensures normalized == Normalized(normal, items) && KeptInOrder(normal, items, normalized)
    {
      hide KeptInOrder;
      normalized := [];
      for i := 0 to |items|
        invariant normalized == Normalized(normal, items[..i])
      {
        var item := normal(items[i]);
        assert items[..i + 1][..i] == items[..i];
        if item.Some? {
          normalized := normalized + [item.value];
        }
      }
      assert items[..|items|] == items;
      var _ := NormalizedKeeps(normal, items);
    }

    // evictOldestCodexReasoningReplayEntries
    method EvictOldest(count: nat) returns (ghost evicted: set<string>)
      modifies this
      ensures Oldest(old(entries), evicted, if count < |old(entries)| then count else |old(entries)|)
      ensures entries == old(entries) - evicted
    {
      if count == 0 || |entries| == 0 {
        evicted := {};
        return;
      }
      var candidates := Candidates();
      ghost var listed := candidates;
      ghost var b := entries;
      candidates := Sort(candidates, NoLater);
      ListsPermuted(listed, candidates, b);
      ListedSize(candidates, b);
      var n := if count > |candidates| then |candidates| else count;
      FirstAreOldest(candidates, b, n);
      DeleteFirst(candidates, n);
      evicted := KeysTo(candidates, n);
    }

    method DeleteFirst(candidates: seq<Candidate>, n: nat)
      requires n <= |candidates|
      modifies this
      ensures entries == old(entries) - KeysTo(candidates, n)
    {
      for i := 0 to n
        invariant entries == old(entries) - KeysTo(candidates, i)
      {
        assert KeysTo(candidates, i + 1) == KeysTo(candidates, i) + {candidates[i].key};
        entries := entries - {candidates[i].key};
      }
    }

    method Candidates() returns (cs: seq<Candidate>)
      ensures Lists(cs, entries)
    {
      cs := [];
      var keys := entries.Keys;
      while keys != {}
        invariant keys <= entries.Keys
        invariant forall i ::
            0 <= i < |cs| ==> cs[i].key in entries && cs[i].key !in keys && cs[i].at == entries[cs[i].key].at
        invariant DistinctBy(cs, KeyOf)
        invariant forall k :: k in entries && k !in keys ==> exists i :: 0 <= i < |cs| && cs[i].key == k
        decreases keys
      {
        var k :| k in keys;
        ghost var was := cs;
        keys := keys - {k};
        cs := cs + [Candidate(k, entries[k].at)];
        forall q | q in entries && q !in keys ensures exists i :: 0 <= i < |cs| && cs[i].key == q {
          if q == k {
            assert cs[|was|].key == q;
          } else {
            var i :| 0 <= i < |was| && was[i].key == q;
            assert cs[i].key == q;
          }
        }
      }
    }

    // GetCodexReasoningReplayItemsRequired
    method Get(model: string, session: string, now: int) returns (items: Option<seq<bytes>>)
      modifies this
      ensures items == Answer(old(entries), model, session, now)
      ensures entries == Apply(normal, old(entries), Op.Get(model, session), now)
      ensures var key := CacheKey(model, session);
              && (items.Some? <==> key != "" && key in old(entries) && now - old(entries)[key].at <= 3_600_000_000_000)
              && (items.Some? ==> items.value == old(entries)[key].items)
              && (items.Some? ==> entries == old(entries)[key := Entry(items.value, now)])
              && (items.None? ==> entries == if key == "" then old(entries) else old(entries) - {key})
    {
      hide CacheKey;
      var key := CacheKey(model, session);
      if key == "" {
        return None;
      }
      if key !in entries {
        return None;
      }
      var entry := entries[key];
      if now - entry.at > TTL {
        entries := entries - {key};
        return None;
      }
      entries := entries[key := Entry(entry.items, now)];
      return Some(entry.items);
    }

    // DeleteCodexReasoningReplayItemRequired
    method Delete(model: string, session: string)
      modifies this
      ensures entries == Apply(normal, old(entries), Op.Delete(model, session), 0)
      ensures var key := CacheKey(model, session); entries == if key == "" then old(entries) else old(entries) - {key}
    {
      hide CacheKey;
      var key := CacheKey(model, session);
      if key == "" {
        return;
      }
      entries := entries - {key};
    }

    // ClearCodexReasoningReplayCache
    method Clear()
      modifies this
      ensures entries == map[]
    {
      entries := map[];
    }

    // purgeExpiredCodexReasoningReplayCache
    method Purge(now: int)
      modifies this
      ensures entries == Purged(old(entries), now)
      ensures forall k :: k in entries <==> k in old(entries) && now - old(entries)[k].at <= 3_600_000_000_000
      ensures forall k :: k in entries ==> entries[k] == old(entries)[k]
    {
      var keys := entries.Keys;
      while keys != {}
        invariant keys <= old(entries).Keys && entries.Keys <= old(entries).Keys
        invariant forall k :: k in entries ==> entries[k] == old(entries)[k]
        invariant forall k :: k in old(entries) ==> (k in entries <==> k in keys || Live(old(entries)[k], now))
        decreases keys
      {
        var k :| k in keys;
        keys := keys - {k};
        if now - entries[k].at > TTL {
          entries := entries - {k};
        }
      }
    }
  }

  lemma ListedSize(cs: seq<Candidate>, b: Entries)
    requires Lists(cs, b)
    ensures |cs| == |b|
  {
    DistinctKeySet(cs, |cs|);
    assert KeysTo(cs, |cs|) == b.Keys;
  }

  // ---- Runs ----------------------------------------------------------------------------------

  // The entries after the first n operations, from an empty cache.
  function State(normal: bytes -> Option<bytes>, run: seq<Timed>, n: nat): Entries
    requires n <= |run|
  {
    if n == 0 then map[] else Apply(normal, State(normal, run, n - 1), run[n - 1].op, run[n - 1].now)
  }

  // Every eviction of the run is one the code can make.
  ghost predicate Legal(normal: bytes -> Option<bytes>, run: seq<Timed>)
  {
    forall i :: 0 <= i < |run| ==> Possible(normal, State(normal, run, i), run[i].op, run[i].now)
  }

  predicate Nondecreasing(run: seq<Timed>)
  {
    forall i, j :: 0 <= i <= j < |run| ==> run[i].now <= run[j].now
  }

  lemma MinusSize(b: Entries, gone: set<string>)
    requires gone <= b.Keys
    ensures |b - gone| == |b| - |gone|
  {
    assert (b - gone).Keys == b.Keys - gone;
    assert |b.Keys - gone| == |b.Keys| - |gone|;
  }

  lemma SmallerMap(a: Entries, b: Entries)
    requires a.Keys <= b.Keys
    ensures |a| <= |b|
  {
    assert b.Keys == a.Keys + (b.Keys - a.Keys);
  }

  lemma EvictsEnough(b: Entries, evicted: set<string>)
    requires Evicts(b, evicted) && |b| <= MAX_ENTRIES + 1
    ensures |b - evicted| <= MAX_ENTRIES
  {
    if |b| > MAX_ENTRIES {
      MinusSize(b, evicted);
    }
  }

  lemma StoreBounded(normal: bytes -> Option<bytes>, b: Entries, op: Op, now: int)
    requires |b| <= MAX_ENTRIES && Possible(normal, b, op, now) && op.Store?
    ensures |Apply(normal, b, op, now)| <= MAX_ENTRIES
  {
    hide CacheKey, Normalized, Accepted, Evicts;
    if Accepted(normal, op.model, op.session, op.items) {
      var b' := Stored(normal, b, op.model, op.session, op.items, now);
      assert b'.Keys == b.Keys + {CacheKey(op.model, op.session)};
      EvictsEnough(b', op.evicted);
    }
  }

  lemma OthersAddNothing(normal: bytes -> Option<bytes>, b: Entries, op: Op, now: int)
    requires !op.Store?
    ensures Apply(normal, b, op, now).Keys <= b.Keys
  {
    hide CacheKey;
  }

  // Between operations the cache never holds more than its limit.
  lemma {:induction false} SizeBounded(normal: bytes -> Option<bytes>, run: seq<Timed>, n: nat)
    requires Legal(normal, run) && n <= |run|
    ensures |State(normal, run, n)| <= 10240
    decreases n
  {
    hide Apply, Possible;
    if n > 0 {
      SizeBounded(normal, run, n - 1);
      var b, op, now := State(normal, run, n - 1), run[n - 1].op, run[n - 1].now;
      if op.Store? {
        StoreBounded(normal, b, op, now);
      } else {
        OthersAddNothing(normal, b, op, now);
        SmallerMap(Apply(normal, b, op, now), b);
      }
    }
  }

  // No entry is ever younger than the last operation.
  lemma {:induction false} NoFuture(normal: bytes -> Option<bytes>, run: seq<Timed>, n: nat)
    requires n <= |run| && Nondecreasing(run)
    ensures forall k, i ::
        k in State(normal, run, n) && n <= i + 1 <= |run| && 0 <= i ==> State(normal, run, n)[k].at <= run[i].now
    decreases n
  {
    hide CacheKey, Normalized, Accepted;
    if n > 0 {
      NoFuture(normal, run, n - 1);
    }
  }

  // ---- A store that evicts its own entry -------------------------------------------------------

  // The other entries that are older than now.
  function OlderOthers(b: Entries, key: string, now: int): set<string>
  {
    set k | k in b && k != key && b[k].at < now
  }

  // Between a set and a larger one there is one of every size in between.
  lemma {:induction false} SizeBetween<T>(some: set<T>, all: set<T>, n: nat) returns (pick: set<T>)
    requires some <= all && |some| <= n <= |all|
    ensures some <= pick <= all && |pick| == n
    decreases n - |some|
  {
    if |some| == n {
      pick := some;
    } else {
      assert some != all;
      var x :| x in all && x !in some;
      assert |some + {x}| == |some| + 1;
      pick := SizeBetween(some + {x}, all, n);
    }
  }

  // Some choice of what goes takes this key exactly when fewer entries than a batch are older.
  lemma OldestWithKey(b: Entries, key: string, now: int, count: nat)
    requires key in b && b[key].at == now && 0 < count <= |b| && forall k :: k in b ==> b[k].at <= now
    ensures (exists evicted :: Oldest(b, evicted, count) && key in evicted) <==> |OlderOthers(b, key, now)| < count
  {
    var older := OlderOthers(b, key, now);
    if evicted :| Oldest(b, evicted, count) && key in evicted {
      assert older <= evicted - {key};
      Subset(older, evicted - {key});
    }
    if |older| < count {
      assert |older + {key}| == |older| + 1;
      var evicted := SizeBetween(older + {key}, b.Keys, count);
      assert Oldest(b, evicted, count);
    }
  }

  lemma Subset<T>(a: set<T>, b: set<T>)
    requires a <= b
    ensures |a| <= |b|
  {
    assert b == a + (b - a);
  }

  // A store can evict its own entry exactly when it takes the cache over its limit and finds
  // fewer entries than a batch that are older than itself.
  lemma OwnEviction(normal: bytes -> Option<bytes>, b: Entries, model: string, session: string, items: seq<bytes>,
          now: int)
    requires forall k :: k in b ==> b[k].at <= now
    ensures var key := CacheKey(model, session);
            (exists evicted ::
                Possible(normal, b, Op.Store(model, session, items, evicted), now) && key in evicted) <==>
            && Accepted(normal, model, session, items)
            && |b.Keys + {key}| > 10240
            && |OlderOthers(b, key, now)| < 128
  {
    hide CacheKey, Normalized, Oldest, OlderOthers;
    var key, b' := CacheKey(model, session), Stored(normal, b, model, session, items, now);
    assert b'.Keys == b.Keys + {key};
    if Accepted(normal, model, session, items) && |b'| > MAX_ENTRIES {
      OldestWithKey(b', key, now, EVICT_BATCH);
      assert OlderOthers(b', key, now) == OlderOthers(b, key, now) by { SameOthers(b, key, b'[key], now); }
      assert forall evicted {:trigger Oldest(b', evicted, EVICT_BATCH)} ::
          Possible(normal, b, Op.Store(model, session, items, evicted), now) <==> Oldest(b', evicted, EVICT_BATCH);
    }
  }

  lemma SameOthers(b: Entries, key: string, e: Entry, now: int)
    ensures OlderOthers(b[key := e], key, now) == OlderOthers(b, key, now)
  {
  }

  // In every run with a clock that never goes back: the condition above on the entries as the
  // store finds them.
  lemma OwnEvictionInRuns(normal: bytes -> Option<bytes>, run: seq<Timed>, model: string, session: string,
          items: seq<bytes>, now: int)
    requires Nondecreasing(run) && (|run| > 0 ==> run[|run| - 1].now <= now)
    ensures var key, b := CacheKey(model, session), State(normal, run, |run|);
            (exists evicted ::
                Possible(normal, b, Op.Store(model, session, items, evicted), now) && key in evicted) <==>
            && Accepted(normal, model, session, items)
            && |b.Keys + {key}| > 10240
            && |OlderOthers(b, key, now)| < 128
  {
    hide CacheKey, Accepted, Possible, OlderOthers, Apply;
    var b := State(normal, run, |run|);
    NoFuture(normal, run, |run|);
    forall k | k in b ensures b[k].at <= now {
      assert |run| > 0;
      assert b[k].at <= run[|run| - 1].now;
    }
    OwnEviction(normal, b, model, session, items, now);
  }

  // When it does, everything left is of the very same age.
  lemma OwnEvictionIsATie(normal: bytes -> Option<bytes>, b: Entries, op: Op, now: int, k: string)
    requires op.Store? && Possible(normal, b, op, now) && forall q :: q in b ==> b[q].at <= now
    requires CacheKey(op.model, op.session) in op.evicted && k in Apply(normal, b, op, now)
    ensures Apply(normal, b, op, now)[k].at == now
  {
    hide CacheKey, Normalized;
    var b' := Stored(normal, b, op.model, op.session, op.items, now);
    assert k in b' && k !in op.evicted;
    assert b'[CacheKey(op.model, op.session)].at <= b'[k].at;
  }

  // ---- It happens: as many stores as the cache holds, and one more, all at the same moment ------

  function Letters(n: nat): string
  {
    seq(n + 1, _ => 'a')
  }

  function Burst(item: bytes, i: nat): Timed
  {
    Timed(Op.Store("m", Letters(i), [item], {}), 0)
  }

  lemma LetterKey(n: nat)
    ensures |CacheKey("m", Letters(n))| == |CacheKey("m", Letters(0))| + n && CacheKey("m", Letters(n)) != ""
  {
    assert TrimSpace("m") == "m" && TrimSpace(Letters(n)) == Letters(n) && TrimSpace(Letters(0)) == Letters(0);
  }

  lemma OneItem(normal: bytes -> Option<bytes>, item: bytes)
    requires normal(item).Some?
    ensures Normalized(normal, [item]) == [normal(item).value]
  {
    assert Normalized(normal, []) == [];
  }

  lemma RoomLeft(normal: bytes -> Option<bytes>, b: Entries, op: Op, now: int)
    requires |b| < MAX_ENTRIES && op.Store? && op.evicted == {}
    ensures Possible(normal, b, op, now)
  {
    hide CacheKey, Normalized;
    var key := CacheKey(op.model, op.session);
    assert Stored(normal, b, op.model, op.session, op.items, now).Keys == b.Keys + {key};
    assert |b.Keys + {key}| <= |b| + 1;
  }

  // k entries of one moment, under shorter keys than the next store of the burst uses.
  predicate Filled(b: Entries, k: nat)
  {
    |b| == k && forall q :: q in b ==> b[q].at == 0 && |q| < |CacheKey("m", Letters(k))|
  }

  lemma BurstStep(normal: bytes -> Option<bytes>, item: bytes, b: Entries, k: nat)
    requires normal(item).Some? && Filled(b, k)
    ensures Filled(Apply(normal, b, Burst(item, k).op, 0), k + 1)
  {
    hide CacheKey, Letters, Normalized, Apply;
    LetterKey(k);
    LetterKey(k + 1);
    BurstAdds(normal, item, b, k);
    var key, e := CacheKey("m", Letters(k)), Entry([normal(item).value], 0);
    assert b[key := e].Keys == b.Keys + {key};
  }

  lemma BurstAdds(normal: bytes -> Option<bytes>, item: bytes, b: Entries, k: nat)
    requires normal(item).Some?
    ensures Apply(normal, b, Burst(item, k).op, 0) == b[CacheKey("m", Letters(k)) := Entry([normal(item).value], 0)]
  {
    hide CacheKey, Letters, Normalized;
    OneItem(normal, item);
    LetterKey(k);
    assert Accepted(normal, "m", Letters(k), [item]);
    var after := Stored(normal, b, "m", Letters(k), [item], 0);
    assert after - {} == after;
  }

  lemma {:induction false} BurstFills(normal: bytes -> Option<bytes>, item: bytes, run: seq<Timed>, k: nat)
    requires normal(item).Some? && k <= |run| <= MAX_ENTRIES && forall i :: 0 <= i < |run| ==> run[i] == Burst(item, i)
    ensures Filled(State(normal, run, k), k)
    ensures k < |run| ==> Possible(normal, State(normal, run, k), run[k].op, 0)
    decreases k
  {
    hide Possible, Apply, CacheKey, Letters;
    if k > 0 {
      BurstFills(normal, item, run, k - 1);
      BurstStep(normal, item, State(normal, run, k - 1), k - 1);
    } else {
      assert State(normal, run, 0) == map[];
    }
    if k < |run| {
      RoomLeft(normal, State(normal, run, k), run[k].op, 0);
    }
  }

  lemma {:induction false} StateOfPrefix(normal: bytes -> Option<bytes>, run: seq<Timed>, more: seq<Timed>, n: nat)
    requires n <= |run|
    ensures State(normal, run + more, n) == State(normal, run, n)
    decreases n
  {
    hide Apply;
    if n > 0 {
      StateOfPrefix(normal, run, more, n - 1);
    }
  }

  lemma OwnEvictionHappens(normal: bytes -> Option<bytes>, item: bytes) returns (run: seq<Timed>)
    requires normal(item).Some?
    ensures |run| == 10240 + 1 && Legal(normal, run) && Nondecreasing(run)
    ensures var last := run[10240].op;
            && last.Store? && Accepted(normal, last.model, last.session, last.items)
            && CacheKey(last.model, last.session) in last.evicted
  {
    hide CacheKey, Possible, Letters, OlderOthers, Apply, Normalized;
    var burst := seq(MAX_ENTRIES, i requires 0 <= i < MAX_ENTRIES => Burst(item, i));
    var session := Letters(MAX_ENTRIES);
    var key, b := CacheKey("m", session), State(normal, burst, MAX_ENTRIES);
    BurstFills(normal, item, burst, MAX_ENTRIES);
    LetterKey(MAX_ENTRIES);
    assert key !in b && |b.Keys + {key}| == MAX_ENTRIES + 1;
    assert OlderOthers(b, key, 0) == {} by { NothingOlder(b, key, 0); }
    OneItem(normal, item);
    OwnEviction(normal, b, "m", session, [item], 0);
    var evicted :| Possible(normal, b, Op.Store("m", session, [item], evicted), 0) && key in evicted;
    var last := [Timed(Op.Store("m", session, [item], evicted), 0)];
    run := burst + last;
    forall i | 0 <= i < |run| ensures Possible(normal, State(normal, run, i), run[i].op, run[i].now) {
      StateOfPrefix(normal, burst, last, i);
      if i < MAX_ENTRIES {
        BurstFills(normal, item, burst, i);
      }
    }
  }

  lemma NothingOlder(b: Entries, key: string, now: int)
    requires forall k :: k in b ==> b[k].at >= now
    ensures OlderOthers(b, key, now) == {}
  {
  }

  // ---- The plain record of one key -------------------------------------------------------------

  // The last store of the key, its time moved forward by every lookup that finds it live,
  // gone when deleted, cleared or evicted.
  function Record(normal: bytes -> Option<bytes>, run: seq<Timed>, n: nat, key: string): Option<Entry>
    requires n <= |run|
  {
    if n == 0 then None else Recorded(normal, Record(normal, run, n - 1, key), run[n - 1].op, run[n - 1].now, key)
  }

  function Recorded(normal: bytes -> Option<bytes>, was: Option<Entry>, op: Op, now: int, key: string): Option<Entry>
  {
    match op
    case Store(model, session, items, evicted) =>
      if !Accepted(normal, model, session, items) then was
      else if key in evicted then None
      else if CacheKey(model, session) == key then Some(Entry(Normalized(normal, items), now))
      else was
    case Get(model, session) =>
      if key != "" && CacheKey(model, session) == key && was.Some? && Live(was.value, now)
          then Some(Entry(was.value.items, now)) else was
    case Delete(model, session) => if key != "" && CacheKey(model, session) == key then None else was
    case Clear => None
    case Purge => was
  }

  function Alive(e: Option<Entry>, now: int): Option<Entry>
  {
    if e.Some? && Live(e.value, now) then e else None
  }

  lemma StepAgrees(normal: bytes -> Option<bytes>, b: Entries, was: Option<Entry>, op: Op, before: int, now: int,
          key: string)
    requires before <= now && key != "" && Alive(Lookup(b, key), before) == Alive(was, before)
    ensures Alive(Lookup(Apply(normal, b, op, now), key), now) == Alive(Recorded(normal, was, op, now, key), now)
  {
    hide CacheKey, Normalized;
  }

  // At any time the live entry of a key is the live record of it.
  lemma {:induction false} RunAgrees(normal: bytes -> Option<bytes>, run: seq<Timed>, n: nat, now: int, key: string)
    requires n <= |run| && Nondecreasing(run) && (n > 0 ==> run[n - 1].now <= now) && key != ""
    ensures Alive(Lookup(State(normal, run, n), key), now) == Alive(Record(normal, run, n, key), now)
    decreases n
  {
    hide Apply, Recorded;
    if n > 0 {
      var last := run[n - 1];
      RunAgrees(normal, run, n - 1, last.now, key);
      StepAgrees(normal, State(normal, run, n - 1), Record(normal, run, n - 1, key), last.op, last.now, last.now, key);
    }
  }

  // Every lookup of every run answers what the plain record says.
  lemma LookupsAgree(normal: bytes -> Option<bytes>, run: seq<Timed>, i: nat)
    requires i < |run| && Nondecreasing(run) && run[i].op.Get? && CacheKey(run[i].op.model, run[i].op.session) != ""
    ensures Answer(State(normal, run, i), run[i].op.model, run[i].op.session, run[i].now)
         == Found(Record(normal, run, i, CacheKey(run[i].op.model, run[i].op.session)), run[i].now)
  {
    hide CacheKey, State, Record;
    RunAgrees(normal, run, i, run[i].now, CacheKey(run[i].op.model, run[i].op.session));
  }

  // Operation j stored under this key and kept what it stored.
  predicate Stores(normal: bytes -> Option<bytes>, op: Op, key: string)
  {
    op.Store? && Usable(normal, op) && CacheKey(op.model, op.session) == key && key !in op.evicted
  }

  predicate Gets(op: Op, key: string)
  {
    op.Get? && key != "" && CacheKey(op.model, op.session) == key
  }

  // Operation touches the time of a live entry of this key.
  predicate Touches(normal: bytes -> Option<bytes>, op: Op, key: string)
  {
    Stores(normal, op, key) || Gets(op, key)
  }

  predicate Removes(normal: bytes -> Option<bytes>, op: Op, key: string)
  {
    || op.Clear?
    || (op.Delete? && key != "" && CacheKey(op.model, op.session) == key)
    || (op.Store? && Usable(normal, op) && key in op.evicted)
  }

  // What is on record is exactly the last store of the key, not removed since, and its time
  // is that of an operation on the key since then.
  lemma {:induction false} RecordIsLastStore(normal: bytes -> Option<bytes>, run: seq<Timed>, n: nat,
          key: string) returns (j: nat, t: nat)
    requires n <= |run| && Record(normal, run, n, key).Some?
    ensures j <= t < n && Stores(normal, run[j].op, key) && Touches(normal, run[t].op, key)
    ensures Record(normal, run, n, key).value == Entry(Normalized(normal, run[j].op.items), run[t].now)
    ensures forall m :: j < m < n ==> !Stores(normal, run[m].op, key) && !Removes(normal, run[m].op, key)
    decreases n
  {
    hide CacheKey, Normalized, Accepted, Usable;
    var op := run[n - 1].op;
    if op.Store? { UsableIs(normal, op.model, op.session, op.items, op.evicted); }
    if Stores(normal, op, key) {
      j, t := n - 1, n - 1;
    } else {
      j, t := RecordIsLastStore(normal, run, n - 1, key);
      if op.Get? && key != "" && CacheKey(op.model, op.session) == key
          && Live(Record(normal, run, n - 1, key).value, run[n - 1].now) {
        t := n - 1;
      }
    }
  }

  // A hit returns exactly what the last store of the key normalised, never an entry that
  // was removed since or that nobody touched for longer than the TTL.
  lemma HitIsLastStore(normal: bytes -> Option<bytes>, run: seq<Timed>, i: nat, key: string) returns (j: nat, t: nat)
    requires i < |run| && Nondecreasing(run) && run[i].op.Get?
    requires CacheKey(run[i].op.model, run[i].op.session) == key != ""
    requires Answer(State(normal, run, i), run[i].op.model, run[i].op.session, run[i].now).Some?
    ensures j <= t < i && Stores(normal, run[j].op, key) && Touches(normal, run[t].op, key)
    ensures run[i].now - run[t].now <= TTL
    ensures Answer(State(normal, run, i), run[i].op.model, run[i].op.session, run[i].now)
        == Some(Normalized(normal, run[j].op.items))
    ensures KeptInOrder(normal, run[j].op.items, Normalized(normal, run[j].op.items))
    ensures forall m :: j < m < i ==> !Stores(normal, run[m].op, key) && !Removes(normal, run[m].op, key)
  {
    hide CacheKey, State, Record, Normalized;
    LookupsAgree(normal, run, i);
    j, t := RecordIsLastStore(normal, run, i, key);
    var _ := NormalizedKeeps(normal, run[j].op.items);
  }

  // ---- Exactly when a lookup hits ------------------------------------------------------------------

  // Operation j stored under the key, nothing took its place or removed it before i, and at
  // every lookup of the key since, as well as at i, its last touch was an hour ago at most.
  predicate KeptAlive(normal: bytes -> Option<bytes>, run: seq<Timed>, i: nat, key: string, j: nat)
    requires i < |run|
  {
    && j < i && Stores(normal, run[j].op, key)
    && (forall m :: j < m < i ==> !Stores(normal, run[m].op, key) && !Removes(normal, run[m].op, key))
    && forall m :: j < m <= i && (Gets(run[m].op, key) || m == i) ==> TouchedWithin(run, key, j, m)
  }

  function ItemsOf(op: Op): seq<bytes>
  {
    if op.Store? then op.items else []
  }

  predicate TouchedWithin(run: seq<Timed>, key: string, j: nat, m: nat)
    requires j < m < |run|
  {
    exists t :: j <= t < m && (t == j || Gets(run[t].op, key)) && run[m].now - run[t].now <= 3_600_000_000_000
  }

  // A record that is not live when it is looked up is never live again.
  lemma {:induction false} DeadStays(normal: bytes -> Option<bytes>, run: seq<Timed>, m: nat, n: nat, key: string)
    requires m <= n < |run| && Nondecreasing(run) && Alive(Record(normal, run, m, key), run[m].now) == None
    requires forall q :: m <= q < n ==> !Stores(normal, run[q].op, key)
    ensures Alive(Record(normal, run, n, key), run[n].now) == None
    decreases n
  {
    hide CacheKey, Normalized, Accepted, Usable;
    if n > m {
      DeadStays(normal, run, m, n - 1, key);
      var op := run[n - 1].op;
      if op.Store? { UsableIs(normal, op.model, op.session, op.items, op.evicted); }
    }
  }

  // What one operation does to the record of a key.
  lemma RecordedIs(normal: bytes -> Option<bytes>, was: Option<Entry>, op: Op, now: int, key: string)
    requires key != ""
    ensures var r := Recorded(normal, was, op, now, key);
            && (Stores(normal, op, key) ==> r == Some(Entry(Normalized(normal, ItemsOf(op)), now)))
            && (Removes(normal, op, key) ==> r == None)
            && (Gets(op, key) && was.Some? && Live(was.value, now) ==> r == Some(Entry(was.value.items, now)))
            && (!Stores(normal, op, key) && !Removes(normal, op, key) && !Gets(op, key) ==> r == was)
  {
    hide CacheKey, Normalized, Accepted, Usable;
    if op.Store? { UsableIs(normal, op.model, op.session, op.items, op.evicted); }
  }

  // While it is kept alive the record has the time of its last touch.
  lemma {:induction false} AliveRecorded(normal: bytes -> Option<bytes>, run: seq<Timed>, i: nat, key: string, j: nat,
          n: nat)
    returns (t: nat)
    requires i < |run| && Nondecreasing(run) && key != "" && KeptAlive(normal, run, i, key, j) && j < n <= i
    ensures j <= t < n && Record(normal, run, n, key) == Some(Entry(Normalized(normal, ItemsOf(run[j].op)), run[t].now))
    ensures forall q :: t < q < n ==> !Gets(run[q].op, key)
    decreases n
  {
    hide Normalized, Stores, Removes, Gets, Recorded, TouchedWithin;
    RecordedIs(normal, Record(normal, run, n - 1, key), run[n - 1].op, run[n - 1].now, key);
    if n == j + 1 {
      t := j;
    } else {
      t := AliveRecorded(normal, run, i, key, j, n - 1);
      if Gets(run[n - 1].op, key) {
        LastTouch(run, key, j, n - 1, t);
        t := n - 1;
      }
    }
  }

  lemma LastTouch(run: seq<Timed>, key: string, j: nat, m: nat, t: nat)
    requires m < |run| && Nondecreasing(run) && j <= t < m && TouchedWithin(run, key, j, m)
    requires forall q :: t < q < m ==> !Gets(run[q].op, key)
    ensures run[m].now - run[t].now <= TTL
  {
    hide Gets;
    var u :| j <= u < m && (u == j || Gets(run[u].op, key)) && run[m].now - run[u].now <= 3_600_000_000_000;
    assert u <= t;
  }

  // What the lookup of operation i answers.
  function Looked(normal: bytes -> Option<bytes>, run: seq<Timed>, i: nat): Option<seq<bytes>>
    requires i < |run| && run[i].op.Get?
  {
    Answer(State(normal, run, i), run[i].op.model, run[i].op.session, run[i].now)
  }

  // A lookup hits if and only if some store of its key has been kept alive, and then it
  // returns what that store kept.
  lemma HitExactly(normal: bytes -> Option<bytes>, run: seq<Timed>, i: nat, key: string)
    requires i < |run| && Nondecreasing(run) && run[i].op.Get? && Gets(run[i].op, key)
    ensures Looked(normal, run, i).Some? <==> exists j: nat :: KeptAlive(normal, run, i, key, j)
    ensures forall j: nat :: KeptAlive(normal, run, i, key, j) ==> Returns(normal, run, j, Looked(normal, run, i))
  {
    hide CacheKey, State, Record, Normalized, Stores, Removes, KeptAlive, KeptInOrder;
    LookupsAgree(normal, run, i);
    forall j: nat | KeptAlive(normal, run, i, key, j) ensures Returns(normal, run, j, Looked(normal, run, i)) {
      KeptFound(normal, run, i, key, j);
    }
    if Looked(normal, run, i).Some? {
      var j := FoundKept(normal, run, i, key);
    }
  }

  // The answer is what operation j stored, item by item in order.
  ghost predicate Returns(normal: bytes -> Option<bytes>, run: seq<Timed>, j: nat, answer: Option<seq<bytes>>)
  {
    j < |run| && answer.Some? && KeptInOrder(normal, ItemsOf(run[j].op), answer.value)
  }

  lemma KeptFound(normal: bytes -> Option<bytes>, run: seq<Timed>, i: nat, key: string, j: nat)
    requires i < |run| && Nondecreasing(run) && key != "" && KeptAlive(normal, run, i, key, j)
    ensures Returns(normal, run, j, Found(Record(normal, run, i, key), run[i].now))
  {
    hide CacheKey, Normalized, Record, Stores, Removes, Gets;
    var t := AliveRecorded(normal, run, i, key, j, i);
    LastTouch(run, key, j, i, t);
    var _ := NormalizedKeeps(normal, ItemsOf(run[j].op));
  }

  lemma FoundKept(normal: bytes -> Option<bytes>, run: seq<Timed>, i: nat, key: string) returns (j: nat)
    requires i < |run| && Nondecreasing(run) && key != "" && Found(Record(normal, run, i, key), run[i].now).Some?
    ensures KeptAlive(normal, run, i, key, j)
  {
    hide CacheKey, Normalized, Record, Stores, Removes, Gets;
    var t: nat;
    j, t := RecordIsLastStore(normal, run, i, key);
    forall m | j < m <= i && (Gets(run[m].op, key) || m == i) ensures TouchedWithin(run, key, j, m) {
      LiveTouched(normal, run, i, key, j, m);
    }
  }

  lemma LiveTouched(normal: bytes -> Option<bytes>, run: seq<Timed>, i: nat, key: string, j: nat, m: nat)
    requires i < |run| && Nondecreasing(run) && j < m <= i && Found(Record(normal, run, i, key), run[i].now).Some?
    requires Stores(normal, run[j].op, key)
    requires forall q :: j < q < i ==> !Stores(normal, run[q].op, key) && !Removes(normal, run[q].op, key)
    ensures TouchedWithin(run, key, j, m)
  {
    hide CacheKey, Normalized, Record, Stores, Removes, Gets;
    if Alive(Record(normal, run, m, key), run[m].now) == None {
      DeadStays(normal, run, m, i, key);
    }
    var k, u := RecordIsLastStore(normal, run, m, key);
    assert k == j;
    assert u == j || Gets(run[u].op, key);
  }

  // ---- Keys --------------------------------------------------------------------------------------

  predicate NulFree(s: string)
  {
    forall i :: 0 <= i < |s| ==> s[i] != '\0'
  }

  // The first model goes on where the second ends: its own NUL is where the second pair is split.
  predicate Shifted(a: string, x: string, b: string, y: string)
  {
    |b| < |a| && a[..|b| + 1] == b + NUL && y == a[|b| + 1..] + NUL + x
  }

  // Exactly which pairs share a key: equal ones, and those that split one text at different NULs.
  lemma SharedKeys(m1: string, s1: string, m2: string, s2: string)
    requires CacheKey(m1, s1) != "" && CacheKey(m2, s2) != ""
    ensures var a, x, b, y := TrimSpace(m1), TrimSpace(s1), TrimSpace(m2), TrimSpace(s2);
            CacheKey(m1, s1) == CacheKey(m2, s2) <==> (a == b && x == y) || Shifted(a, x, b, y) || Shifted(b, y, a, x)
  {
    hide CacheKey, TrimSpace, Shifted;
    var a, x, b, y := TrimSpace(m1), TrimSpace(s1), TrimSpace(m2), TrimSpace(s2);
    KeyText(m1, s1);
    KeyText(m2, s2);
    SameTails(KEY_HEAD, a + NUL + x, b + NUL + y);
    if |a| >= |b| {
      SameSplit(a, x, b, y);
    } else {
      SameSplit(b, y, a, x);
    }
  }

  lemma KeyText(model: string, session: string)
    requires CacheKey(model, session) != ""
    ensures CacheKey(model, session) == KEY_HEAD + (TrimSpace(model) + NUL + TrimSpace(session))
  {
    hide TrimSpace;
  }

  lemma SameTails(head: string, v: string, w: string)
    ensures head + v == head + w <==> v == w
  {
    assert (head + v)[|head|..] == v && (head + w)[|head|..] == w;
  }

  lemma SameSplit(a: string, x: string, b: string, y: string)
    requires |b| <= |a|
    ensures a + NUL + x == b + NUL + y <==> (a == b && x == y) || Shifted(a, x, b, y)
    ensures !Shifted(b, y, a, x)
  {
    var v, w := a + NUL + x, b + NUL + y;
    assert v[..|a|] == a && v[|a| + 1..] == x && w[..|b|] == b && w[|b| + 1..] == y;
    if |b| < |a| {
      assert v[..|b| + 1] == a[..|b| + 1] && w[..|b| + 1] == b + NUL;
      assert v[|b| + 1..] == a[|b| + 1..] + NUL + x;
      assert v == v[..|b| + 1] + v[|b| + 1..] && w == w[..|b| + 1] + w[|b| + 1..];
    }
  }

  // Distinct trimmed pairs have distinct keys as long as model names hold no NUL byte.
  lemma KeyInjective(m1: string, s1: string, m2: string, s2: string)
    requires CacheKey(m1, s1) == CacheKey(m2, s2) != ""
    requires NulFree(TrimSpace(m1)) && NulFree(TrimSpace(m2))
    ensures TrimSpace(m1) == TrimSpace(m2) && TrimSpace(s1) == TrimSpace(s2)
  {
    hide TrimSpace;
    var a, b := TrimSpace(m1), TrimSpace(m2);
    SharedKeys(m1, s1, m2, s2);
    NotShifted(a, TrimSpace(s1), b, TrimSpace(s2));
    NotShifted(b, TrimSpace(s2), a, TrimSpace(s1));
  }

  lemma NotShifted(a: string, x: string, b: string, y: string)
    requires NulFree(a)
    ensures !Shifted(a, x, b, y)
  {
    assert |b| < |a| ==> a[..|b| + 1][|b|] != '\0';
  }

  // With a NUL byte in a model name two different pairs can share a key.
  lemma KeyCollision()
    ensures CacheKey("a\0b", "c") == CacheKey("a", "b\0c") != ""
  {
    assert TrimSpace("a\0b") == "a\0b" && TrimSpace("c") == "c" && TrimSpace("a") == "a" && TrimSpace("b\0c") == "b\0c";
    assert Shifted("a\0b", "c", "a", "b\0c");
    SharedKeys("a\0b", "c", "a", "b\0c");
  }
}
