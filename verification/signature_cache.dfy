// The signature cache: buckets of entries per model group, with sliding expiry, bucket
// removal and a background purge, against a plain timestamped record of each key.
module SignatureCache {
  import opened Text

  datatype Entry = Entry(signature: string, at: int)

  // Model group -> text hash -> entry.
  type Buckets = map<string, map<string, Entry>>

  // Times and durations are nanoseconds.
  const TTL: int := 3 * 3600 * 1_000_000_000
  const MIN_SIGNATURE := 50
  const SKIP := "skip_thought_signature_validator"

  // strings.Contains
  predicate Contains(s: string, part: string)
  {
    part <= s || (|s| > 0 && Contains(s[1..], part))
  }

  // GetModelGroup
  function Group(model: string): string
  {
    if Contains(model, "gpt") then "gpt"
    else if Contains(model, "claude") then "claude"
    else if Contains(model, "gemini") then "gemini"
    else model
  }

  predicate StandsAt(s: string, part: string, i: int)
  {
    0 <= i && i + |part| <= |s| && s[i..i + |part|] == part
  }

  // The part stands somewhere in s.
  predicate Within(s: string, part: string)
  {
    exists i: int :: 0 <= i <= |s| && StandsAt(s, part, i)
  }

  lemma StandsFurther(s: string, part: string, i: nat)
    requires |s| > 0
    ensures StandsAt(s[1..], part, i) <==> StandsAt(s, part, i + 1)
  {
    if i + 1 + |part| <= |s| {
      assert s[1..][i..i + |part|] == s[i + 1..i + 1 + |part|];
    }
  }

  lemma {:induction false} ContainsIs(s: string, part: string)
    ensures Contains(s, part) <==> Within(s, part)
    decreases |s|
  {
    hide StandsAt;
    assert part <= s <==> StandsAt(s, part, 0) by { StandsFirst(s, part); }
    if |s| > 0 {
      ContainsIs(s[1..], part);
      forall i: nat ensures StandsAt(s[1..], part, i) <==> StandsAt(s, part, i + 1) { StandsFurther(s, part, i); }
      if i :| 0 <= i <= |s[1..]| && StandsAt(s[1..], part, i) {
        assert StandsAt(s, part, i + 1);
      }
      if i :| 0 <= i <= |s| && StandsAt(s, part, i) && i > 0 {
        assert StandsAt(s[1..], part, i - 1);
      }
    }
  }

  lemma StandsFirst(s: string, part: string)
    ensures part <= s <==> StandsAt(s, part, 0)
  {
  }

  // Which models share their signatures: the first of the three names that is part of a model
  // decides, and a model that has none stands for itself.
  lemma GroupIs(model: string)
    ensures Within(model, "gpt") ==> Group(model) == "gpt"
    ensures !Within(model, "gpt") && Within(model, "claude") ==> Group(model) == "claude"
    ensures !Within(model, "gpt") && !Within(model, "claude") && Within(model, "gemini") ==> Group(model) == "gemini"
    ensures !Within(model, "gpt") && !Within(model, "claude") && !Within(model, "gemini") ==> Group(model) == model
  {
    hide Contains, Within;
    ContainsIs(model, "gpt");
    ContainsIs(model, "claude");
    ContainsIs(model, "gemini");
  }

  function Missing(group: string): string
  {
    if group == "gemini" then SKIP else ""
  }

  predicate Live(e: Entry, now: int)
  {
    now - e.at <= TTL
  }

  // ---- What each operation does to the buckets -------------------------------------------

  function Put(b: Buckets, g: string, h: string, e: Entry): Buckets
  {
    b[g := (if g in b then b[g] else map[])[h := e]]
  }

  // An entry dropped by a lookup leaves its bucket in place.
  function Drop(b: Buckets, g: string, h: string): Buckets
    requires g in b
  {
    b[g := b[g] - {h}]
  }

  function DropAndTidy(b: Buckets, g: string, h: string): Buckets
  {
    if g !in b then b else if |b[g] - {h}| == 0 then b - {g} else b[g := b[g] - {h}]
  }

  function Kept(entries: map<string, Entry>, now: int): map<string, Entry>
  {
    map h | h in entries && Live(entries[h], now) :: entries[h]
  }

  function Purged(b: Buckets, now: int): Buckets
  {
    map g | g in b && |Kept(b[g], now)| > 0 :: Kept(b[g], now)
  }

  function Lookup(b: Buckets, g: string, h: string): Option<Entry>
  {
    if g in b && h in b[g] then Some(b[g][h]) else None
  }

  function AfterGet(b: Buckets, g: string, h: string, now: int): Buckets
  {
    match Lookup(b, g, h)
    case None => b
    case Some(e) => if Live(e, now) then Put(b, g, h, Entry(e.signature, now)) else Drop(b, g, h)
  }

  function Found(e: Option<Entry>, g: string, now: int): string
  {
    if e.Some? && Live(e.value, now) then e.value.signature else Missing(g)
  }

  // What a lookup answers when there is nothing: gemini models skip the validation.
  function Absent(group: string): string
  {
    if group == "gemini" then "skip_thought_signature_validator" else ""
  }

  // An entry that is three hours old at most.
  predicate Recent(entries: map<string, Entry>, h: string, now: int)
  {
    h in entries && now - entries[h].at <= 10_800_000_000_000
  }

  lemma KeptRecent(entries: map<string, Entry>, now: int)
    ensures forall h :: h in Kept(entries, now) <==> Recent(entries, h, now)
    ensures forall h :: h in Kept(entries, now) ==> Kept(entries, now)[h] == entries[h]
    ensures |Kept(entries, now)| > 0 <==> exists h :: Recent(entries, h, now)
  {
    if h :| Recent(entries, h, now) {
      assert h in Kept(entries, now).Keys;
    }
    if |Kept(entries, now)| > 0 {
      var h :| h in Kept(entries, now).Keys;
    }
  }

  lemma PurgedIs(b: Buckets, now: int)
    ensures var left := Purged(b, now);
            && (forall g :: g in left <==> g in b && exists h :: Recent(b[g], h, now))
            && (forall g, h :: g in left ==> (h in left[g] <==> Recent(b[g], h, now)))
            && (forall g, h :: g in left && h in left[g] ==> h in b[g] && left[g][h] == b[g][h])
  {
    hide Kept;
    forall g | g in b
      ensures |Kept(b[g], now)| > 0 <==> exists h :: Recent(b[g], h, now)
      ensures forall h :: h in Kept(b[g], now) <==> Recent(b[g], h, now)
      ensures forall h :: h in Kept(b[g], now) ==> h in b[g] && Kept(b[g], now)[h] == b[g][h]
    {
      KeptRecent(b[g], now);
    }
  }

  lemma EmptyBucket(left: map<string, Entry>, was: map<string, Entry>, h: string)
    requires left == was - {h}
    ensures |left| == 0 <==> was.Keys <= {h}
  {
    assert left.Keys == was.Keys - {h};
    assert |left.Keys| == 0 <==> left.Keys == {};
  }

  // ---- The cache as the code runs it -------------------------------------------------------

  class Cache {
    var groups: Buckets
    const hash: string -> string

    constructor (hash: string -> string)
      ensures groups == map[] && this.hash == hash
    {
      groups, this.hash := map[], hash;
    }

    // CacheSignatureBestEffort
    method Store(model: string, text: string, signature: string, now: int) returns (stored: bool)
      modifies this
      ensures stored == (text != "" && |signature| >= 50)
      ensures groups == if stored then Put(old(groups), Group(model), hash(text), Entry(signature, now))
          else old(groups)
      ensures stored ==>
                var g := Group(model);
                var bucket := if g in old(groups) then old(groups)[g] else map[];
                groups == old(groups)[g := bucket[hash(text) := Entry(signature, now)]]
    {
      hide Group;
      if text == "" || signature == "" {
        return false;
      }
      if |signature| < MIN_SIGNATURE {
        return false;
      }
      var groupKey, textHash := Group(model), hash(text);
      if groupKey !in groups {
        groups := groups[groupKey := map[]];
      }
      groups := groups[groupKey := groups[groupKey][textHash := Entry(signature, now)]];
      return true;
    }

    // GetCachedSignatureRequired
    method Get(model: string, text: string, now: int) returns (signature: string)
      modifies this
      ensures signature == if text == "" then Missing(Group(model))
          else Found(Lookup(old(groups), Group(model), hash(text)), Group(model), now)
      ensures groups == if text == "" then old(groups) else AfterGet(old(groups), Group(model), hash(text), now)
      ensures var g, h := Group(model), hash(text);
              var there := text != "" && g in old(groups) && h in old(groups)[g];
              var was := if there then Some(old(groups)[g][h]) else None;
              if was.None? then groups == old(groups) && signature == Absent(g)
              else if now - was.value.at > 10_800_000_000_000 then
                groups == old(groups)[g := old(groups)[g] - {h}] && signature == Absent(g)
              else
                && groups == old(groups)[g := old(groups)[g][h := Entry(was.value.signature, now)]]
                && signature == was.value.signature
    {
      hide Group;
      var groupKey := Group(model);
      if text == "" {
        return Missing(groupKey);
      }
      if groupKey !in groups {
        return Missing(groupKey);
      }
      var textHash := hash(text);
      if textHash !in groups[groupKey] {
        return Missing(groupKey);
      }
      var entry := groups[groupKey][textHash];
      if now - entry.at > TTL {
        groups := groups[groupKey := groups[groupKey] - {textHash}];
        return Missing(groupKey);
      }
      groups := groups[groupKey := groups[groupKey][textHash := Entry(entry.signature, now)]];
      return entry.signature;
    }

    // DeleteCachedSignatureRequired
    method Delete(model: string, text: string)
      modifies this
      ensures groups == if text == "" then old(groups) else DropAndTidy(old(groups), Group(model), hash(text))
      ensures var g, h := Group(model), hash(text);
              if text == "" || g !in old(groups) then groups == old(groups)
              else if old(groups)[g].Keys <= {h} then groups == old(groups) - {g}
              else groups == old(groups)[g := old(groups)[g] - {h}]
    {
      hide Group;
      if text == "" {
        return;
      }
      var groupKey := Group(model);
      if groupKey !in groups {
        return;
      }
      groups := groups[groupKey := groups[groupKey] - {hash(text)}];
      EmptyBucket(groups[groupKey], old(groups)[groupKey], hash(text));
      if |groups[groupKey]| == 0 {
        groups := groups - {groupKey};
        assert groups == old(groups) - {groupKey};
      }
    }

    // ClearSignatureCache
    method Clear(model: string)
      modifies this
      ensures groups == if model == "" then map[] else old(groups) - {Group(model)}
    {
      if model == "" {
        groups := map[];
      } else {
        groups := groups - {Group(model)};
      }
    }

    // purgeExpiredCaches, its part for this cache; the map is ranged over in any order.
    method Purge(now: int)
      modifies this
      ensures groups == Purged(old(groups), now)
      ensures forall g :: g in groups <==> g in old(groups) && exists h :: Recent(old(groups)[g], h, now)
      ensures forall g, h :: g in groups ==> (h in groups[g] <==> Recent(old(groups)[g], h, now))
      ensures forall g, h :: g in groups && h in groups[g] ==>
                g in old(groups) && h in old(groups)[g] && groups[g][h] == old(groups)[g][h]
    {
      hide Recent, Purged;
      PurgedIs(groups, now);
      RangeGroups(now);
    }

    method RangeGroups(now: int)
      modifies this
      ensures groups == Purged(old(groups), now)
    {
      hide Kept;
      var keys := groups.Keys;
      while keys != {}
        invariant keys <= old(groups).Keys
        invariant forall g :: g in keys ==> g in groups && groups[g] == old(groups)[g]
        invariant forall g :: g in old(groups) && g !in keys ==>
                    if |Kept(old(groups)[g], now)| > 0 then g in groups && groups[g] == Kept(old(groups)[g], now)
                        else g !in groups
        invariant groups.Keys <= old(groups).Keys
        decreases keys
      {
        var g :| g in keys;
        keys := keys - {g};
        var entries := PurgeBucket(groups[g], now);
        if |entries| == 0 {
          groups := groups - {g};
        } else {
          groups := groups[g := entries];
        }
      }
    }

    static method PurgeBucket(entries: map<string, Entry>, now: int) returns (left: map<string, Entry>)
      ensures left == Kept(entries, now)
    {
      left := entries;
      var keys := entries.Keys;
      while keys != {}
        invariant keys <= entries.Keys && left.Keys <= entries.Keys
        invariant forall h :: h in left ==> left[h] == entries[h]
        invariant forall h :: h in entries ==> (h in left <==> h in keys || Live(entries[h], now))
        decreases keys
      {
        var h :| h in keys;
        keys := keys - {h};
        if now - entries[h].at > TTL {
          left := left - {h};
        }
      }
    }
  }

  // ---- Runs --------------------------------------------------------------------------------

  datatype Op =
    | Store(model: string, text: string, signature: string)
    | Get(model: string, text: string)
    | Delete(model: string, text: string)
    | Clear(model: string)
    | Purge

  // An operation and the time its clock read, if it reads one.
  datatype Timed = Timed(op: Op, now: int)

  datatype Outcome = Stored(ok: bool) | Signature(text: string) | Nothing

  predicate Storable(text: string, signature: string)
  {
    text != "" && |signature| >= MIN_SIGNATURE
  }

  function Apply(hash: string -> string, b: Buckets, op: Op, now: int): Buckets
  {
    match op
    case Store(model, text, signature) =>
      if Storable(text, signature) then Put(b, Group(model), hash(text), Entry(signature, now)) else b
    case Get(model, text) => if text == "" then b else AfterGet(b, Group(model), hash(text), now)
    case Delete(model, text) => if text == "" then b else DropAndTidy(b, Group(model), hash(text))
    case Clear(model) => if model == "" then map[] else b - {Group(model)}
    case Purge => Purged(b, now)
  }

  function Answer(hash: string -> string, b: Buckets, op: Op, now: int): Outcome
  {
    match op
    case Store(_, text, signature) => Stored(Storable(text, signature))
    case Get(model, text) =>
      Signature(if text == "" then Missing(Group(model))
          else Found(Lookup(b, Group(model), hash(text)), Group(model), now))
    case _ => Nothing
  }

  // The buckets after the first n operations, from an empty cache.
  function State(hash: string -> string, run: seq<Timed>, n: nat): Buckets
    requires n <= |run|
  {
    if n == 0 then map[] else Apply(hash, State(hash, run, n - 1), run[n - 1].op, run[n - 1].now)
  }

  // A clock that never goes back.
  predicate Nondecreasing(run: seq<Timed>)
  {
    forall i, j :: 0 <= i <= j < |run| ==> run[i].now <= run[j].now
  }

  // ---- The plain record of one key ---------------------------------------------------------

  // What is on record for a key after n operations: the last store, its time moved forward
  // by every lookup that found it live, gone when deleted or cleared. Purges do nothing.
  function Record(hash: string -> string, run: seq<Timed>, n: nat, g: string, h: string): Option<Entry>
    requires n <= |run|
  {
    if n == 0 then None
    else Recorded(hash, Record(hash, run, n - 1, g, h), run[n - 1].op, run[n - 1].now, g, h)
  }

  function Recorded(hash: string -> string, was: Option<Entry>, op: Op, now: int, g: string, h: string): Option<Entry>
  {
    match op
    case Store(model, text, signature) =>
      if Storable(text, signature) && Group(model) == g && hash(text) == h then Some(Entry(signature, now)) else was
    case Get(model, text) =>
      if text != "" && Group(model) == g && hash(text) == h && was.Some? && Live(was.value, now)
      then Some(Entry(was.value.signature, now)) else was
    case Delete(model, text) => if text != "" && Group(model) == g && hash(text) == h then None else was
    case Clear(model) => if model == "" || Group(model) == g then None else was
    case Purge => was
  }

  function Alive(e: Option<Entry>, now: int): Option<Entry>
  {
    if e.Some? && Live(e.value, now) then e else None
  }

  lemma LookupPut(b: Buckets, pg: string, ph: string, e: Entry, g: string, h: string)
    ensures Lookup(Put(b, pg, ph, e), g, h) == if g == pg && h == ph then Some(e) else Lookup(b, g, h)
  {
  }

  lemma LookupDrop(b: Buckets, dg: string, dh: string, g: string, h: string)
    ensures Lookup(DropAndTidy(b, dg, dh), g, h) == if g == dg && h == dh then None else Lookup(b, g, h)
    ensures dg in b ==> Lookup(Drop(b, dg, dh), g, h) == if g == dg && h == dh then None else Lookup(b, g, h)
  {
    if g == dg && h != dh && g in b && h in b[g] {
      assert h in b[g] - {dh};
    }
  }

  lemma LookupPurged(b: Buckets, now: int, g: string, h: string)
    ensures Lookup(Purged(b, now), g, h) == Alive(Lookup(b, g, h), now)
  {
    if g in b && h in b[g] && Live(b[g][h], now) {
      assert h in Kept(b[g], now);
    }
  }

  // One operation keeps buckets and record in agreement on everything that is still live.
  lemma StepAgrees(hash: string -> string, b: Buckets, was: Option<Entry>, op: Op, before: int, now: int, g: string,
          h: string)
    requires before <= now && Alive(Lookup(b, g, h), before) == Alive(was, before)
    ensures Alive(Lookup(Apply(hash, b, op, now), g, h), now) == Alive(Recorded(hash, was, op, now, g, h), now)
  {
    hide Group, Lookup, Put, Drop, DropAndTidy, Purged;
    match op
    case Store(model, text, signature) => LookupPut(b, Group(model), hash(text), Entry(signature, now), g, h);
    case Get(model, text) => GetAgrees(hash, b, was, model, text, before, now, g, h);
    case Delete(model, text) => LookupDrop(b, Group(model), hash(text), g, h);
    case Clear(model) => LookupClear(b, if model == "" then None else Some(Group(model)), g, h);
    case Purge => LookupPurged(b, now, g, h);
  }

  lemma LookupClear(b: Buckets, group: Option<string>, g: string, h: string)
    ensures Lookup(if group.None? then map[] else b - {group.value}, g, h) == if group.None? || group.value == g
        then None else Lookup(b, g, h)
  {
  }

  lemma GetAgrees(hash: string -> string, b: Buckets, was: Option<Entry>, model: string, text: string, before: int,
          now: int, g: string, h: string)
    requires before <= now && Alive(Lookup(b, g, h), before) == Alive(was, before)
    ensures var op := Get(model, text);
            Alive(Lookup(Apply(hash, b, op, now), g, h), now) == Alive(Recorded(hash, was, op, now, g, h), now)
  {
    hide Group, Put, Drop;
    var mg, mh := Group(model), hash(text);
    if text != "" && Lookup(b, mg, mh).Some? {
      LookupPut(b, mg, mh, Entry(Lookup(b, mg, mh).value.signature, now), g, h);
      LookupDrop(b, mg, mh, g, h);
    }
  }

  lemma {:induction false} RunAgrees(hash: string -> string, run: seq<Timed>, n: nat, now: int, g: string, h: string)
    requires n <= |run| && Nondecreasing(run) && (n > 0 ==> run[n - 1].now <= now)
    ensures Alive(Lookup(State(hash, run, n), g, h), now) == Alive(Record(hash, run, n, g, h), now)
  {
    hide Apply, Recorded, Lookup;
    if n > 0 {
      var last := run[n - 1];
      RunAgrees(hash, run, n - 1, last.now, g, h);
      StepAgrees(hash, State(hash, run, n - 1), Record(hash, run, n - 1, g, h), last.op, last.now, last.now, g, h);
    } else {
      NothingStored(g, h);
    }
  }

  lemma NothingStored(g: string, h: string)
    ensures Lookup(map[], g, h) == None
  {
  }

  // Every lookup of every run answers what the plain record says.
  lemma LookupsAgree(hash: string -> string, run: seq<Timed>, i: nat)
    requires i < |run| && Nondecreasing(run) && run[i].op.Get? && run[i].op.text != ""
    ensures Answer(hash, State(hash, run, i), run[i].op, run[i].now) ==
            var g, h := Group(run[i].op.model), hash(run[i].op.text);
            Signature(Found(Record(hash, run, i, g, h), g, run[i].now))
  {
    hide Group, State, Record, Lookup;
    RunAgrees(hash, run, i, run[i].now, Group(run[i].op.model), hash(run[i].op.text));
  }

  // ---- Exactly what every lookup answers -------------------------------------------------------

  predicate Stores(hash: string -> string, op: Op, g: string, h: string)
  {
    op.Store? && op.text != "" && |op.signature| >= 50 && Group(op.model) == g && hash(op.text) == h
  }

  predicate Gets(hash: string -> string, op: Op, g: string, h: string)
  {
    op.Get? && op.text != "" && Group(op.model) == g && hash(op.text) == h
  }

  predicate Removes(hash: string -> string, op: Op, g: string, h: string)
  {
    || (op.Delete? && op.text != "" && Group(op.model) == g && hash(op.text) == h)
    || (op.Clear? && (op.model == "" || Group(op.model) == g))
  }

  // Operation j stored under the key, nothing took its place or removed it before i, and at
  // every lookup of the key since, as well as at i, its last touch was three hours ago at most.
  predicate KeptAlive(hash: string -> string, run: seq<Timed>, i: nat, g: string, h: string, j: nat)
    requires i < |run|
  {
    && j < i && Stores(hash, run[j].op, g, h)
    && (forall m :: j < m < i ==> !Stores(hash, run[m].op, g, h) && !Removes(hash, run[m].op, g, h))
    && forall m :: j < m <= i && (Gets(hash, run[m].op, g, h) || m == i) ==> TouchedWithin(hash, run, g, h, j, m)
  }

  predicate TouchedWithin(hash: string -> string, run: seq<Timed>, g: string, h: string, j: nat, m: nat)
    requires j < m < |run|
  {
    exists t :: j <= t < m && (t == j || Gets(hash, run[t].op, g, h)) && run[m].now - run[t].now <= 10_800_000_000_000
  }

  function SignatureOf(op: Op): string
  {
    if op.Store? then op.signature else ""
  }

  // What is on record is the last store of the key, with the time of an operation on it since.
  lemma {:induction false} RecordIsLastStore(hash: string -> string, run: seq<Timed>, n: nat, g: string, h: string)
    returns (j: nat, t: nat)
    requires n <= |run| && Record(hash, run, n, g, h).Some?
    ensures j <= t < n && Stores(hash, run[j].op, g, h) && (t == j || Gets(hash, run[t].op, g, h))
    ensures Record(hash, run, n, g, h).value == Entry(SignatureOf(run[j].op), run[t].now)
    ensures forall m :: j < m < n ==> !Stores(hash, run[m].op, g, h) && !Removes(hash, run[m].op, g, h)
    decreases n
  {
    hide Group;
    var op := run[n - 1].op;
    if Stores(hash, op, g, h) {
      j, t := n - 1, n - 1;
    } else {
      j, t := RecordIsLastStore(hash, run, n - 1, g, h);
      if Gets(hash, op, g, h) && Live(Record(hash, run, n - 1, g, h).value, run[n - 1].now) {
        t := n - 1;
      }
    }
  }

  // A record that is not live when it is looked up is never live again.
  lemma {:induction false} DeadStays(hash: string -> string, run: seq<Timed>, m: nat, n: nat, g: string, h: string)
    requires m <= n < |run| && Nondecreasing(run) && Alive(Record(hash, run, m, g, h), run[m].now) == None
    requires forall q :: m <= q < n ==> !Stores(hash, run[q].op, g, h)
    ensures Alive(Record(hash, run, n, g, h), run[n].now) == None
    decreases n
  {
    hide Group;
    if n > m {
      DeadStays(hash, run, m, n - 1, g, h);
    }
  }

  // What one operation does to the record of a key.
  lemma RecordedIs(hash: string -> string, was: Option<Entry>, op: Op, now: int, g: string, h: string)
    ensures var r := Recorded(hash, was, op, now, g, h);
            && (Stores(hash, op, g, h) ==> r == Some(Entry(SignatureOf(op), now)))
            && (Removes(hash, op, g, h) ==> r == None)
            && (Gets(hash, op, g, h) && was.Some? && Live(was.value, now) ==>
                  r == Some(Entry(was.value.signature, now)))
            && (!Stores(hash, op, g, h) && !Removes(hash, op, g, h) && !Gets(hash, op, g, h) ==> r == was)
  {
    hide Group;
  }

  // While it is kept alive the record has the time of its last touch.
  lemma {:induction false} AliveRecorded(hash: string -> string, run: seq<Timed>, i: nat, g: string, h: string, j: nat,
          n: nat)
    returns (t: nat)
    requires i < |run| && Nondecreasing(run) && KeptAlive(hash, run, i, g, h, j) && j < n <= i
    ensures j <= t < n && Record(hash, run, n, g, h) == Some(Entry(SignatureOf(run[j].op), run[t].now))
    ensures forall q :: t < q < n ==> !Gets(hash, run[q].op, g, h)
    decreases n
  {
    hide Stores, Removes, Gets, Recorded, TouchedWithin;
    RecordedIs(hash, Record(hash, run, n - 1, g, h), run[n - 1].op, run[n - 1].now, g, h);
    if n == j + 1 {
      t := j;
    } else {
      t := AliveRecorded(hash, run, i, g, h, j, n - 1);
      if Gets(hash, run[n - 1].op, g, h) {
        LastTouch(hash, run, g, h, j, n - 1, t);
        t := n - 1;
      }
    }
  }

  lemma LastTouch(hash: string -> string, run: seq<Timed>, g: string, h: string, j: nat, m: nat, t: nat)
    requires m < |run| && Nondecreasing(run) && j <= t < m && TouchedWithin(hash, run, g, h, j, m)
    requires forall q :: t < q < m ==> !Gets(hash, run[q].op, g, h)
    ensures run[m].now - run[t].now <= TTL
  {
    hide Gets;
    var u :| j <= u < m && (u == j || Gets(hash, run[u].op, g, h)) && run[m].now - run[u].now <= 10_800_000_000_000;
    assert u <= t;
  }

  // What the lookup of operation i answers.
  function Looked(hash: string -> string, run: seq<Timed>, i: nat): Outcome
    requires i < |run|
  {
    Answer(hash, State(hash, run, i), run[i].op, run[i].now)
  }

  // Every lookup of every run answers the signature of the store that has been kept alive, and
  // the answer for nothing if and only if there is none.
  lemma HitExactly(hash: string -> string, run: seq<Timed>, i: nat, g: string, h: string)
    requires i < |run| && Nondecreasing(run) && Gets(hash, run[i].op, g, h)
    ensures forall j: nat :: KeptAlive(hash, run, i, g, h, j) ==>
              j < i && Looked(hash, run, i) == Signature(SignatureOf(run[j].op))
    ensures (forall j: nat :: !KeptAlive(hash, run, i, g, h, j)) ==> Looked(hash, run, i) == Signature(Absent(g))
  {
    hide Group, State, Record, Stores, Removes, KeptAlive;
    LookupsAgree(hash, run, i);
    forall j: nat | KeptAlive(hash, run, i, g, h, j)
      ensures j < i && Found(Record(hash, run, i, g, h), g, run[i].now) == SignatureOf(run[j].op)
    {
      KeptFound(hash, run, i, g, h, j);
    }
    if Alive(Record(hash, run, i, g, h), run[i].now).Some? {
      var j := FoundKept(hash, run, i, g, h);
    }
  }

  lemma KeptFound(hash: string -> string, run: seq<Timed>, i: nat, g: string, h: string, j: nat)
    requires i < |run| && Nondecreasing(run) && KeptAlive(hash, run, i, g, h, j)
    ensures j < i && Found(Record(hash, run, i, g, h), g, run[i].now) == SignatureOf(run[j].op)
  {
    hide Record, Stores, Removes, Gets;
    var t := AliveRecorded(hash, run, i, g, h, j, i);
    LastTouch(hash, run, g, h, j, i, t);
  }

  lemma FoundKept(hash: string -> string, run: seq<Timed>, i: nat, g: string, h: string) returns (j: nat)
    requires i < |run| && Nondecreasing(run) && Alive(Record(hash, run, i, g, h), run[i].now).Some?
    ensures KeptAlive(hash, run, i, g, h, j)
  {
    hide Record, Stores, Removes, Gets;
    var t: nat;
    j, t := RecordIsLastStore(hash, run, i, g, h);
    forall m | j < m <= i && (Gets(hash, run[m].op, g, h) || m == i) ensures TouchedWithin(hash, run, g, h, j, m) {
      LiveTouched(hash, run, i, g, h, j, m);
    }
  }

  lemma LiveTouched(hash: string -> string, run: seq<Timed>, i: nat, g: string, h: string, j: nat, m: nat)
    requires i < |run| && Nondecreasing(run) && j < m <= i && Alive(Record(hash, run, i, g, h), run[i].now).Some?
    requires Stores(hash, run[j].op, g, h)
    requires forall q :: j < q < i ==> !Stores(hash, run[q].op, g, h) && !Removes(hash, run[q].op, g, h)
    ensures TouchedWithin(hash, run, g, h, j, m)
  {
    hide Record, Stores, Removes, Gets;
    if Alive(Record(hash, run, m, g, h), run[m].now) == None {
      DeadStays(hash, run, m, i, g, h);
    }
    var k, u := RecordIsLastStore(hash, run, m, g, h);
    assert k == j;
  }

  // ---- Purging is unobservable -------------------------------------------------------------

  function WithoutPurges(run: seq<Timed>): seq<Timed>
  {
    if |run| == 0 then []
    else
      var front := WithoutPurges(run[..|run| - 1]);
      if run[|run| - 1].op.Purge? then front else front + [run[|run| - 1]]
  }

  // The answers of all operations but the purges, in order.
  function Answers(hash: string -> string, run: seq<Timed>): seq<Outcome>
  {
    if |run| == 0 then []
    else
      var n := |run| - 1;
      var front := Answers(hash, run[..n]);
      if run[n].op.Purge? then front else front + [Answer(hash, State(hash, run, n), run[n].op, run[n].now)]
  }

  lemma {:induction false} RecordPrefix(hash: string -> string, run: seq<Timed>, m: nat, n: nat, g: string, h: string)
    requires n <= m <= |run|
    ensures Record(hash, run[..m], n, g, h) == Record(hash, run, n, g, h)
  {
    hide Recorded;
    if n > 0 {
      RecordPrefix(hash, run, m, n - 1, g, h);
    }
  }

  lemma {:induction false} StatePrefix(hash: string -> string, run: seq<Timed>, m: nat, n: nat)
    requires n <= m <= |run|
    ensures State(hash, run[..m], n) == State(hash, run, n)
  {
    hide Apply;
    if n > 0 {
      StatePrefix(hash, run, m, n - 1);
    }
  }

  lemma {:induction false} RecordWithoutPurges(hash: string -> string, run: seq<Timed>, g: string, h: string)
    ensures var w := WithoutPurges(run); Record(hash, w, |w|, g, h) == Record(hash, run, |run|, g, h)
    decreases |run|
  {
    hide Recorded;
    if |run| > 0 {
      var n, w := |run| - 1, WithoutPurges(run);
      var front := WithoutPurges(run[..n]);
      RecordWithoutPurges(hash, run[..n], g, h);
      RecordPrefix(hash, run, n, n, g, h);
      if run[n].op.Purge? {
        PurgeRecordsNothing(hash, Record(hash, run, n, g, h), run[n].now, g, h);
      } else {
        assert w[..|front|] == front;
        RecordPrefix(hash, w, |front|, |front|, g, h);
      }
    }
  }

  lemma PurgeRecordsNothing(hash: string -> string, was: Option<Entry>, now: int, g: string, h: string)
    ensures Recorded(hash, was, Purge, now, g, h) == was
  {
  }

  lemma {:induction false} WithoutPurgesKeeps(run: seq<Timed>)
    requires Nondecreasing(run)
    ensures var w := WithoutPurges(run);
            Nondecreasing(w) && (|w| > 0 ==> |run| > 0 && w[|w| - 1].now <= run[|run| - 1].now)
    decreases |run|
  {
    if |run| > 0 {
      WithoutPurgesKeeps(run[..|run| - 1]);
    }
  }

  // Both runs find the same entry live at any later time.
  lemma SameLive(hash: string -> string, run: seq<Timed>, now: int, g: string, h: string)
    requires Nondecreasing(run) && (|run| > 0 ==> run[|run| - 1].now <= now)
    ensures var w := WithoutPurges(run);
            Alive(Lookup(State(hash, w, |w|), g, h), now) == Alive(Lookup(State(hash, run, |run|), g, h), now)
  {
    hide Lookup, State, Record;
    var w := WithoutPurges(run);
    WithoutPurgesKeeps(run);
    RunAgrees(hash, run, |run|, now, g, h);
    RunAgrees(hash, w, |w|, now, g, h);
    RecordWithoutPurges(hash, run, g, h);
  }

  lemma SameAnswer(hash: string -> string, a: Buckets, b: Buckets, op: Op, now: int)
    requires !op.Purge? && forall g, h :: Alive(Lookup(a, g, h), now) == Alive(Lookup(b, g, h), now)
    ensures Answer(hash, a, op, now) == Answer(hash, b, op, now)
  {
    hide Lookup, Group;
    if op.Get? && op.text != "" {
      var g, h := Group(op.model), hash(op.text);
      assert Alive(Lookup(a, g, h), now) == Alive(Lookup(b, g, h), now);
    }
  }

  // However many purges run, and whenever, every other operation answers as if none had.
  lemma {:induction false} PurgeUnobservable(hash: string -> string, run: seq<Timed>)
    requires Nondecreasing(run)
    ensures Answers(hash, run) == Answers(hash, WithoutPurges(run))
    decreases |run|
  {
    hide State, Answer, Lookup;
    if |run| > 0 {
      var n, last := |run| - 1, run[|run| - 1];
      var front, w := WithoutPurges(run[..n]), WithoutPurges(run);
      PurgeUnobservable(hash, run[..n]);
      if !last.op.Purge? {
        forall g, h
          ensures Alive(Lookup(State(hash, front, |front|), g, h), last.now)
               == Alive(Lookup(State(hash, run[..n], n), g, h), last.now)
        {
          SameLive(hash, run[..n], last.now, g, h);
        }
        SameAnswer(hash, State(hash, front, |front|), State(hash, run[..n], n), last.op, last.now);
        StatePrefix(hash, run, n, n);
        assert w[..|front|] == front;
        StatePrefix(hash, w, |front|, |front|);
      }
    }
  }
}
