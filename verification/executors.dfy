// RegisterExecutors: two passes over the active records, each seeing the host and the
// executor manager as they are when it gets to a record, and the commit of what they decide.
module Executors {
  import opened Ordering
  import opened Text

  // What a pass sees of one record. The provider is empty when the record has no executor,
  // is fused, is not current or names no provider; `native` says that someone else's
  // executor serves that provider, and `nativeModels` which trimmed model ids have one.
  datatype Sight = Sight(provider: string, native: bool, models: seq<string>, nativeModels: set<string>)

  // claimedModels, claimedProviders and selectedModels
  datatype Claims = Claims(models: set<string>, providers: map<string, string>, selected: map<string, seq<string>>)

  const NO_CLAIMS := Claims({}, map[], map[])

  function Selected(c: Claims, id: string): seq<string>
  {
    if id in c.selected then c.selected[id] else []
  }

  function Owner(c: Claims, provider: string): string
  {
    if provider in c.providers then c.providers[provider] else ""
  }

  // ---- The first pass ----------------------------------------------------------------------

  predicate MayClaim(c: Claims, id: string, s: Sight)
  {
    && s.provider != "" && !s.native && |s.models| > 0
    && (Owner(c, s.provider) == "" || Owner(c, s.provider) == id)
  }

  predicate Free(c: Claims, s: Sight, model: string)
  {
    TrimSpace(model) != "" && TrimSpace(model) !in c.models && TrimSpace(model) !in s.nativeModels
  }

  function ClaimModel(c: Claims, id: string, s: Sight, model: string): Claims
  {
    if !Free(c, s, model) then c
    else Claims(c.models + {TrimSpace(model)}, c.providers[s.provider := id],
        c.selected[id := Selected(c, id) + [model]])
  }

  // After the first k models of a record.
  function ClaimModels(c: Claims, id: string, s: Sight, k: nat): Claims
    requires k <= |s.models|
  {
    if k == 0 then c else ClaimModel(ClaimModels(c, id, s, k - 1), id, s, s.models[k - 1])
  }

  // After the first n records.
  function FirstPass(ids: seq<string>, sights: seq<Sight>, n: nat): Claims
    requires n <= |ids| == |sights|
  {
    if n == 0 then NO_CLAIMS
    else
      var c := FirstPass(ids, sights, n - 1);
      if MayClaim(c, ids[n - 1], sights[n - 1]) then ClaimModels(c, ids[n - 1], sights[n - 1], |sights[n - 1].models|)
          else c
  }

  // ---- The second pass ---------------------------------------------------------------------

  datatype Executor = Executor(id: string, provider: string)

  datatype ModelClient = ModelClient(id: string, provider: string, models: seq<string>)

  // seenProviders, executorRegistrations and modelClientRegistrations
  datatype Plan = Plan(seen: set<string>, executors: seq<Executor>, clients: seq<ModelClient>)

  const NO_PLAN := Plan({}, [], [])

  // The record competes for its provider: one with models of its own needs a claimed one.
  predicate Takes(c: Claims, id: string, s: Sight)
  {
    s.provider != "" && !(|s.models| > 0 && |Selected(c, id)| == 0)
  }

  function PlanRecord(p: Plan, c: Claims, id: string, s: Sight): Plan
  {
    if !Takes(c, id, s) || s.provider in p.seen then p
    else if s.native then p.(seen := p.seen + {s.provider})
    else
      Plan(
        p.seen + {s.provider},
        p.executors + [Executor(id, s.provider)],
        if |Selected(c, id)| > 0 then p.clients + [ModelClient(id, s.provider, Selected(c, id))] else p.clients)
  }

  function SecondPass(c: Claims, ids: seq<string>, sights: seq<Sight>, n: nat): Plan
    requires n <= |ids| == |sights|
  {
    if n == 0 then NO_PLAN else PlanRecord(SecondPass(c, ids, sights, n - 1), c, ids[n - 1], sights[n - 1])
  }

  function ProvidersOf(es: seq<Executor>): set<string>
  {
    set i | 0 <= i < |es| :: es[i].provider
  }

  // ---- The passes as the code runs them ------------------------------------------------------

  method ClaimRecord(c: Claims, id: string, s: Sight) returns (r: Claims)
    ensures r == if MayClaim(c, id, s) then ClaimModels(c, id, s, |s.models|) else c
  {
    r := c;
    if s.provider == "" || s.native || |s.models| == 0 {
      return;
    }
    var owner := Owner(c, s.provider);
    if owner != "" && owner != id {
      return;
    }
    for k := 0 to |s.models|
      invariant r == ClaimModels(c, id, s, k)
    {
      var modelID := TrimSpace(s.models[k]);
      if modelID == "" || modelID in r.models || modelID in s.nativeModels {
        continue;
      }
      r := Claims(r.models + {modelID}, r.providers[s.provider := id],
                  r.selected[id := (if id in r.selected then r.selected[id] else []) + [s.models[k]]]);
    }
  }

  // `first` and `second` are what each pass sees of the records.
  method DecideExecutors(ids: seq<string>, first: seq<Sight>, second: seq<Sight>) returns (c: Claims, p: Plan)
    requires |ids| == |first| == |second|
    ensures c == FirstPass(ids, first, |ids|) && p == SecondPass(c, ids, second, |ids|)
    ensures Distinct(ids) ==> forall i :: 0 <= i < |ids| ==> ClaimedExactly(c, ids, first, i)
    ensures PlannedExactly(c, ids, second, |ids|, p)
  {
    hide ClaimedExactly, PlannedExactly;
    if Distinct(ids) {
      FirstPassExactly(ids, first, |ids|);
    }
    c := NO_CLAIMS;
    for n := 0 to |ids|
      invariant c == FirstPass(ids, first, n)
    {
      c := ClaimRecord(c, ids[n], first[n]);
    }
    p := NO_PLAN;
    for n := 0 to |ids|
      invariant p == SecondPass(c, ids, second, n)
    {
      var s, selected := second[n], if ids[n] in c.selected then c.selected[ids[n]] else [];
      if s.provider == "" {
        continue;
      }
      if |s.models| > 0 && |selected| == 0 {
        continue;
      }
      if s.provider in p.seen {
        continue;
      }
      p := p.(seen := p.seen + {s.provider});
      if s.native {
        continue;
      }
      p := p.(executors := p.executors + [Executor(ids[n], s.provider)]);
      if |selected| > 0 {
        p := p.(clients := p.clients + [ModelClient(ids[n], s.provider, selected)]);
      }
    }
    SecondPassExactly(c, ids, second, |ids|);
  }

  // ---- What the claims are -------------------------------------------------------------------

  predicate Distinct(ids: seq<string>)
  {
    forall i, j :: 0 <= i < j < |ids| ==> ids[i] != ids[j]
  }

  // The claimed ids of one record are its own, trimmed, not blank, without a native
  // executor, and all different.
  predicate OwnModels(s: Sight, models: seq<string>)
  {
    && (forall k :: 0 <= k < |models| ==>
          models[k] in s.models && TrimSpace(models[k]) != "" && TrimSpace(models[k]) !in s.nativeModels)
    && (forall j, k :: 0 <= j < k < |models| ==> TrimSpace(models[j]) != TrimSpace(models[k]))
    && (|models| > 0 ==> s.provider != "" && !s.native)
  }

  predicate InClaims(c: Claims, models: seq<string>)
  {
    forall k :: 0 <= k < |models| ==> TrimSpace(models[k]) in c.models
  }

  predicate Apart(a: seq<string>, b: seq<string>)
  {
    forall j, k :: 0 <= j < |a| && 0 <= k < |b| ==> TrimSpace(a[j]) != TrimSpace(b[k])
  }

  lemma {:induction false} ClaimModelsOk(c: Claims, id: string, s: Sight, k: nat)
    requires k <= |s.models| && s.provider != "" && !s.native && Selected(c, id) == []
    requires forall i :: i in c.selected ==> InClaims(c, c.selected[i])
    ensures var r := ClaimModels(c, id, s, k);
            && OwnModels(s, Selected(r, id))
            && c.models <= r.models
            && (forall i :: i in r.selected ==> InClaims(r, r.selected[i]))
            && (forall i :: i != id ==> Selected(r, i) == Selected(c, i) && Apart(Selected(r, id), Selected(c, i)))
            && (forall i :: i in r.selected ==> i == id || i in c.selected)
    decreases k
  {
    hide TrimSpace;
    if k > 0 {
      ClaimModelsOk(c, id, s, k - 1);
      var b, m := ClaimModels(c, id, s, k - 1), s.models[k - 1];
      if Free(b, s, m) {
        var r := ClaimModel(b, id, s, m);
        forall i | i in r.selected ensures InClaims(r, r.selected[i]) {
          if i != id { assert InClaims(b, b.selected[i]); }
        }
      }
    }
  }

  // What the first pass settles: claims of different records are apart, and every record's
  // claims are its own and free of native executors.
  lemma {:induction false} FirstPassOk(ids: seq<string>, sights: seq<Sight>, n: nat)
    requires n <= |ids| == |sights| && Distinct(ids)
    ensures var c := FirstPass(ids, sights, n);
            && (forall i :: i in c.selected ==> InClaims(c, c.selected[i]))
            && (forall i :: 0 <= i < n ==> OwnModels(sights[i], Selected(c, ids[i])))
            && (forall i, j :: 0 <= i < j < n ==> Apart(Selected(c, ids[j]), Selected(c, ids[i])))
            && (forall i :: n <= i < |ids| ==> Selected(c, ids[i]) == [])
    decreases n
  {
    hide TrimSpace, ClaimModels, OwnModels, InClaims, Apart;
    if n > 0 {
      FirstPassOk(ids, sights, n - 1);
      var b, id, s := FirstPass(ids, sights, n - 1), ids[n - 1], sights[n - 1];
      if MayClaim(b, id, s) {
        ClaimModelsOk(b, id, s, |s.models|);
      } else {
        NothingOwn(s);
        forall i | 0 <= i < n - 1
          ensures Apart(Selected(b, id), Selected(b, ids[i])) { NothingApart(Selected(b, ids[i])); }
      }
    } else {
      assert NO_CLAIMS.selected == map[];
    }
  }

  lemma NothingOwn(s: Sight)
    ensures OwnModels(s, [])
  {
  }

  lemma NothingApart(b: seq<string>)
    ensures Apart([], b)
  {
  }

  // ---- Exactly what is claimed ---------------------------------------------------------------

  // Model k of a record can be claimed: its trimmed id is not blank, has no native executor,
  // is none of those claimed before, and the record does not list it twice.
  ghost predicate Claimable(s: Sight, taken: iset<string>, k: nat)
    requires k < |s.models|
  {
    var id := TrimSpace(s.models[k]);
    && id != "" && id !in s.nativeModels && id !in taken
    && forall l :: 0 <= l < k ==> TrimSpace(s.models[l]) != id
  }

  // These are exactly the models of the record that can be claimed, in its order.
  ghost predicate AllClaimable(s: Sight, taken: iset<string>, models: seq<string>)
  {
    exists at: seq<nat> :: ClaimableAt(s, taken, |s.models|, models, at)
  }

  ghost predicate ClaimableAt(s: Sight, taken: iset<string>, n: nat, models: seq<string>, at: seq<nat>)
    requires n <= |s.models|
  {
    && Rising(at, n)
    && |models| == |at| && (forall m :: 0 <= m < |at| ==> models[m] == s.models[at[m]])
    && forall k :: 0 <= k < n ==> (k in at <==> Claimable(s, taken, k))
  }

  // The trimmed ids that the first n records have claimed.
  ghost function TakenBy(c: Claims, ids: seq<string>, n: nat): iset<string>
    requires n <= |ids|
  {
    iset j, m | 0 <= j < n && m in Selected(c, ids[j]) :: TrimSpace(m)
  }

  // The record names a provider that nobody else serves and no earlier record has claimed.
  predicate Unclaimed(c: Claims, ids: seq<string>, sights: seq<Sight>, i: nat)
    requires i < |ids| == |sights|
  {
    && sights[i].provider != "" && !sights[i].native
    && forall j :: 0 <= j < i && sights[j].provider == sights[i].provider && ids[j] != "" ==> Selected(c, ids[j]) == []
  }

  ghost predicate ClaimedExactly(c: Claims, ids: seq<string>, sights: seq<Sight>, i: nat)
    requires i < |ids| == |sights|
  {
    if Unclaimed(c, ids, sights, i) then AllClaimable(sights[i], TakenBy(c, ids, i), Selected(c, ids[i]))
    else Selected(c, ids[i]) == []
  }

  // What k models of a record that claims add to the claims.
  ghost predicate Adds(c: Claims, id: string, s: Sight, k: nat, taken: iset<string>, r: Claims, at: seq<nat>)
    requires k <= |s.models|
  {
    && ClaimableAt(s, taken, k, Selected(r, id), at)
    && (forall i :: i != id ==> Selected(r, i) == Selected(c, i))
    && (forall x :: x in r.models <==> x in taken || exists m :: m in Selected(r, id) && TrimSpace(m) == x)
    && r.providers == if Selected(r, id) == [] then c.providers else c.providers[s.provider := id]
  }

  lemma {:induction false} ClaimsOne(c: Claims, id: string, s: Sight, k: nat, taken: iset<string>)
    returns (at: seq<nat>)
    requires k <= |s.models| && Selected(c, id) == [] && forall x :: x in c.models <==> x in taken
    ensures Adds(c, id, s, k, taken, ClaimModels(c, id, s, k), at)
    decreases k
  {
    hide TrimSpace, ClaimModel, Adds, Selected;
    at := [];
    if k == 0 {
      AddsNothing(c, id, s, taken);
    } else {
      at := ClaimsOne(c, id, s, k - 1, taken);
      at := AddsMore(c, id, s, k - 1, taken, ClaimModels(c, id, s, k - 1), at);
    }
  }

  lemma AddsNothing(c: Claims, id: string, s: Sight, taken: iset<string>)
    requires Selected(c, id) == [] && forall x :: x in c.models <==> x in taken
    ensures Adds(c, id, s, 0, taken, c, [])
  {
  }

  lemma AddsMore(c: Claims, id: string, s: Sight, k: nat, taken: iset<string>, b: Claims, at: seq<nat>)
    returns (more: seq<nat>)
    requires k < |s.models| && Adds(c, id, s, k, taken, b, at)
    ensures Adds(c, id, s, k + 1, taken, ClaimModel(b, id, s, s.models[k]), more)
  {
    hide TrimSpace, ClaimableAt, Claimable;
    var models, m := Selected(b, id), s.models[k];
    NewWhenFree(s, taken, k, models, at);
    ClaimableMore(s, taken, k, models, at);
    more := at;
    if Free(b, s, m) {
      more := at + [k];
      assert forall x :: x in models + [m] <==> x in models || x == m;
    }
  }

  lemma ClaimableMore(s: Sight, taken: iset<string>, k: nat, models: seq<string>, at: seq<nat>)
    requires k < |s.models| && ClaimableAt(s, taken, k, models, at)
    ensures if Claimable(s, taken, k) then ClaimableAt(s, taken, k + 1, models + [s.models[k]], at + [k])
            else ClaimableAt(s, taken, k + 1, models, at)
  {
    hide Claimable;
    RisingMore(at, k);
  }

  // A claimable id is not among those claimed so far exactly when no earlier model has it.
  lemma NewWhenFree(s: Sight, taken: iset<string>, k: nat, models: seq<string>, at: seq<nat>)
    requires k < |s.models| && ClaimableAt(s, taken, k, models, at)
    ensures var id := TrimSpace(s.models[k]);
            Claimable(s, taken, k) <==>
              id != "" && id !in s.nativeModels && id !in taken && forall m :: m in models ==> TrimSpace(m) != id
  {
    hide TrimSpace;
    var id := TrimSpace(s.models[k]);
    if l: nat :| id != "" && id !in s.nativeModels && id !in taken && l < k && TrimSpace(s.models[l]) == id {
      var f := FirstOf(s, id, l);
      assert Claimable(s, taken, f);
      var a :| 0 <= a < |at| && at[a] == f;
      assert models[a] in models;
    }
    forall m | m in models && TrimSpace(m) == id ensures !Claimable(s, taken, k) {
      var a :| 0 <= a < |models| && models[a] == m;
      assert at[a] < k;
    }
  }

  lemma {:induction false} FirstOf(s: Sight, id: string, l: nat) returns (f: nat)
    requires l < |s.models| && TrimSpace(s.models[l]) == id
    ensures f <= l && TrimSpace(s.models[f]) == id && forall j :: 0 <= j < f ==> TrimSpace(s.models[j]) != id
    decreases l
  {
    f := l;
    if j: nat :| j < l && TrimSpace(s.models[j]) == id {
      f := FirstOf(s, id, j);
    }
  }

  predicate Claimer(c: Claims, ids: seq<string>, sights: seq<Sight>, j: nat, p: string)
    requires j < |ids| == |sights|
  {
    sights[j].provider == p && ids[j] != "" && Selected(c, ids[j]) != []
  }

  ghost predicate OwnersAre(c: Claims, ids: seq<string>, sights: seq<Sight>, n: nat)
    requires n <= |ids| == |sights|
  {
    && (forall p :: Owner(c, p) != "" ==>
          exists j :: 0 <= j < n && Claimer(c, ids, sights, j, p) && ids[j] == Owner(c, p))
    && forall j :: 0 <= j < n && Claimer(c, ids, sights, j, sights[j].provider) ==> Owner(c, sights[j].provider) != ""
  }

  // What the first pass claims is complete: a record whose provider is unclaimed when its
  // turn comes claims every model it can, and any other record none.
  lemma {:induction false} FirstPassExactly(ids: seq<string>, sights: seq<Sight>, n: nat)
    requires n <= |ids| == |sights| && Distinct(ids)
    ensures var c := FirstPass(ids, sights, n);
            && (forall i :: 0 <= i < n ==> ClaimedExactly(c, ids, sights, i))
            && (forall i :: n <= i < |ids| ==> Selected(c, ids[i]) == [])
            && (forall x :: x in c.models <==> x in TakenBy(c, ids, n))
            && OwnersAre(c, ids, sights, n)
    decreases n
  {
    hide TrimSpace, ClaimModels, AllClaimable, ClaimableAt, Claimer, MayClaim, OwnersAre, Owner;
    if n == 0 {
      NothingClaimed(ids, sights);
    } else {
      FirstPassExactly(ids, sights, n - 1);
      var b, r, id, s := FirstPass(ids, sights, n - 1), FirstPass(ids, sights, n), ids[n - 1], sights[n - 1];
      MayClaimIs(b, ids, sights, n - 1);
      var at: seq<nat> := [];
      NoModels(s, TakenBy(b, ids, n - 1));
      if MayClaim(b, id, s) {
        at := ClaimsOne(b, id, s, |s.models|, TakenBy(b, ids, n - 1));
      }
      forall i | 0 <= i < n - 1 ensures ClaimedExactly(r, ids, sights, i) { SameClaims(b, r, ids, sights, i); }
      SameTaken(b, r, ids, n - 1);
      SameUnclaimed(b, r, ids, sights, n - 1);
      if Unclaimed(r, ids, sights, n - 1) {
        ClaimedWhole(s, TakenBy(r, ids, n - 1), Selected(r, id), at);
      }
      OwnersStep(b, r, ids, sights, n - 1);
    }
  }

  lemma NothingClaimed(ids: seq<string>, sights: seq<Sight>)
    requires |ids| == |sights|
    ensures (forall i :: 0 <= i < |ids| ==> Selected(NO_CLAIMS, ids[i]) == [])
    ensures (forall x :: x in NO_CLAIMS.models <==> x in TakenBy(NO_CLAIMS, ids, 0))
    ensures OwnersAre(NO_CLAIMS, ids, sights, 0)
  {
  }

  lemma ClaimedWhole(s: Sight, taken: iset<string>, models: seq<string>, at: seq<nat>)
    requires ClaimableAt(s, taken, |s.models|, models, at)
    ensures AllClaimable(s, taken, models)
  {
    hide ClaimableAt;
  }

  lemma NoModels(s: Sight, taken: iset<string>)
    ensures |s.models| == 0 ==> ClaimableAt(s, taken, 0, [], [])
  {
  }

  // The turn of a record: its own id owns nothing yet.
  lemma MayClaimIs(c: Claims, ids: seq<string>, sights: seq<Sight>, i: nat)
    requires i < |ids| == |sights| && Distinct(ids) && OwnersAre(c, ids, sights, i)
    ensures MayClaim(c, ids[i], sights[i]) <==> Unclaimed(c, ids, sights, i) && |sights[i].models| > 0
  {
    hide Owner;
    var p := sights[i].provider;
    if j :| 0 <= j < i && sights[j].provider == p && ids[j] != "" && Selected(c, ids[j]) != [] {
      assert Claimer(c, ids, sights, j, sights[j].provider);
    }
  }

  // Claims that agree on these records agree on what they are.
  lemma SameTaken(b: Claims, r: Claims, ids: seq<string>, n: nat)
    requires n <= |ids| && forall j :: 0 <= j < n ==> Selected(r, ids[j]) == Selected(b, ids[j])
    ensures TakenBy(r, ids, n) == TakenBy(b, ids, n)
  {
    hide TrimSpace, Selected;
  }

  lemma SameUnclaimed(b: Claims, r: Claims, ids: seq<string>, sights: seq<Sight>, i: nat)
    requires i < |ids| == |sights| && forall j :: 0 <= j < i ==> Selected(r, ids[j]) == Selected(b, ids[j])
    ensures Unclaimed(r, ids, sights, i) <==> Unclaimed(b, ids, sights, i)
  {
    hide Selected;
  }

  lemma SameClaims(b: Claims, r: Claims, ids: seq<string>, sights: seq<Sight>, i: nat)
    requires i < |ids| == |sights| && forall j :: 0 <= j <= i ==> Selected(r, ids[j]) == Selected(b, ids[j])
    requires ClaimedExactly(b, ids, sights, i)
    ensures ClaimedExactly(r, ids, sights, i)
  {
    hide Selected, AllClaimable, TakenBy, Unclaimed;
    SameTaken(b, r, ids, i);
    SameUnclaimed(b, r, ids, sights, i);
  }

  // One more record: its provider has an owner from now on if it claims.
  lemma OwnersStep(b: Claims, r: Claims, ids: seq<string>, sights: seq<Sight>, i: nat)
    requires i < |ids| == |sights| && Distinct(ids) && OwnersAre(b, ids, sights, i)
    requires forall j :: 0 <= j < i ==> Selected(r, ids[j]) == Selected(b, ids[j])
    requires r.providers == if Selected(r, ids[i]) == [] then b.providers else b.providers[sights[i].provider := ids[i]]
    requires Selected(r, ids[i]) != [] ==> Unclaimed(b, ids, sights, i)
    ensures OwnersAre(r, ids, sights, i + 1)
  {
    hide Selected;
    forall p | Owner(r, p) != ""
      ensures exists j :: 0 <= j < i + 1 && Claimer(r, ids, sights, j, p) && ids[j] == Owner(r, p)
    {
      if Selected(r, ids[i]) != [] && p == sights[i].provider {
        assert Claimer(r, ids, sights, i, p);
      } else {
        assert Owner(r, p) == Owner(b, p);
        var j :| 0 <= j < i && Claimer(b, ids, sights, j, p) && ids[j] == Owner(b, p);
        assert Claimer(r, ids, sights, j, p);
      }
    }
    forall j | 0 <= j < i + 1 && Claimer(r, ids, sights, j, sights[j].provider)
      ensures Owner(r, sights[j].provider) != ""
    {
      if j < i {
        assert Claimer(b, ids, sights, j, sights[j].provider);
      }
    }
  }

  // ---- What is committed ---------------------------------------------------------------------

  // Record i competes for its provider: it has no models of its own, or a claimed one.
  predicate Competes(c: Claims, ids: seq<string>, sights: seq<Sight>, i: nat)
    requires i < |ids| == |sights|
  {
    sights[i].provider != "" && (sights[i].models == [] || Selected(c, ids[i]) != [])
  }

  // It takes its provider in the second pass: no earlier record competes for it.
  predicate First(c: Claims, ids: seq<string>, sights: seq<Sight>, i: nat)
    requires i < |ids| == |sights|
  {
    && Competes(c, ids, sights, i)
    && forall j :: 0 <= j < i && Competes(c, ids, sights, j) ==> sights[j].provider != sights[i].provider
  }

  lemma {:induction false} SecondPassSeen(c: Claims, ids: seq<string>, sights: seq<Sight>, n: nat)
    requires n <= |ids| == |sights|
    ensures forall p :: p in SecondPass(c, ids, sights, n).seen <==>
              exists j :: 0 <= j < n && Competes(c, ids, sights, j) && sights[j].provider == p
    decreases n
  {
    if n > 0 {
      SecondPassSeen(c, ids, sights, n - 1);
      assert Takes(c, ids[n - 1], sights[n - 1]) <==> Competes(c, ids, sights, n - 1);
      hide Takes, Competes;
      var b, r := SecondPass(c, ids, sights, n - 1), SecondPass(c, ids, sights, n);
      forall p ensures p in r.seen <==> exists j ::
          0 <= j < n && Competes(c, ids, sights, j) && sights[j].provider == p {
        if p in b.seen {
          var j :| 0 <= j < n - 1 && Competes(c, ids, sights, j) && sights[j].provider == p;
        }
        if p in r.seen && p !in b.seen {
          assert Competes(c, ids, sights, n - 1) && sights[n - 1].provider == p;
        }
      }
    }
  }

  // An executor is planned for a record exactly when it is the first to compete for its
  // provider and nobody else's executor serves it.
  lemma {:induction false} PlannedExecutors(c: Claims, ids: seq<string>, sights: seq<Sight>, n: nat)
    requires n <= |ids| == |sights|
    ensures forall e :: e in SecondPass(c, ids, sights, n).executors <==>
              exists i ::
                0 <= i < n && First(c, ids, sights, i) && !sights[i].native && e == Executor(ids[i], sights[i].provider)
    decreases n
  {
    hide Takes, First;
    if n > 0 {
      PlannedExecutors(c, ids, sights, n - 1);
      FirstIsUnseen(c, ids, sights, n - 1);
      var b, r := SecondPass(c, ids, sights, n - 1), SecondPass(c, ids, sights, n);
      forall e ensures e in r.executors <==>
        exists i ::
            0 <= i < n && First(c, ids, sights, i) && !sights[i].native && e == Executor(ids[i], sights[i].provider)
      {
        if e in b.executors {
          var i :| 0 <= i < n - 1 && First(c, ids, sights, i) && !sights[i].native
              && e == Executor(ids[i], sights[i].provider);
        }
        if e in r.executors && e !in b.executors {
          assert First(c, ids, sights, n - 1) && !sights[n - 1].native
              && e == Executor(ids[n - 1], sights[n - 1].provider);
        }
      }
    }
  }

  lemma FirstIsUnseen(c: Claims, ids: seq<string>, sights: seq<Sight>, i: nat)
    requires i < |ids| == |sights|
    ensures First(c, ids, sights, i) <==>
        Takes(c, ids[i], sights[i]) && sights[i].provider !in SecondPass(c, ids, sights, i).seen
  {
    assert Takes(c, ids[i], sights[i]) <==> Competes(c, ids, sights, i);
    SecondPassSeen(c, ids, sights, i);
  }

  // The same for model clients, which also need a claimed model. This is exactly when the
  // models a record has claimed are registered.
  lemma {:induction false} PlannedClients(c: Claims, ids: seq<string>, sights: seq<Sight>, n: nat)
    requires n <= |ids| == |sights|
    ensures forall m :: m in SecondPass(c, ids, sights, n).clients <==>
              exists i :: 0 <= i < n && First(c, ids, sights, i) && !sights[i].native && |Selected(c, ids[i])| > 0
                          && m == ModelClient(ids[i], sights[i].provider, Selected(c, ids[i]))
    decreases n
  {
    hide Takes, First, Selected;
    if n > 0 {
      PlannedClients(c, ids, sights, n - 1);
      FirstIsUnseen(c, ids, sights, n - 1);
      var b, r := SecondPass(c, ids, sights, n - 1), SecondPass(c, ids, sights, n);
      forall m ensures m in r.clients <==>
        exists i :: 0 <= i < n && First(c, ids, sights, i) && !sights[i].native && |Selected(c, ids[i])| > 0
                    && m == ModelClient(ids[i], sights[i].provider, Selected(c, ids[i]))
      {
        if m in b.clients {
          var i :| 0 <= i < n - 1 && First(c, ids, sights, i) && !sights[i].native && |Selected(c, ids[i])| > 0
            && m == ModelClient(ids[i], sights[i].provider, Selected(c, ids[i]));
        }
        if m in r.clients && m !in b.clients {
          assert First(c, ids, sights, n - 1) && !sights[n - 1].native && |Selected(c, ids[n - 1])| > 0
            && m == ModelClient(ids[n - 1], sights[n - 1].provider, Selected(c, ids[n - 1]));
        }
      }
    }
  }

  // The executors planned for the first n records stand in the order of the records.
  ghost predicate ExecutorsAt(c: Claims, ids: seq<string>, sights: seq<Sight>, n: nat, es: seq<Executor>, at: seq<nat>)
    requires n <= |ids| == |sights|
  {
    && Rising(at, n)
    && |es| == |at| && (forall k :: 0 <= k < |at| ==> es[k] == Executor(ids[at[k]], sights[at[k]].provider))
    && forall i :: 0 <= i < n ==> (i in at <==> First(c, ids, sights, i) && !sights[i].native)
  }

  ghost predicate ClientsAt(c: Claims, ids: seq<string>, sights: seq<Sight>, n: nat, ms: seq<ModelClient>, at: seq<nat>)
    requires n <= |ids| == |sights|
  {
    && Rising(at, n)
    && |ms| == |at|
    && (forall k :: 0 <= k < |at| ==>
          ms[k] == ModelClient(ids[at[k]], sights[at[k]].provider, Selected(c, ids[at[k]])))
    && forall i :: 0 <= i < n ==>
         (i in at <==> First(c, ids, sights, i) && !sights[i].native && Selected(c, ids[i]) != [])
  }

  ghost predicate PlannedExactly(c: Claims, ids: seq<string>, sights: seq<Sight>, n: nat, p: Plan)
    requires n <= |ids| == |sights|
  {
    && (exists at: seq<nat> :: ExecutorsAt(c, ids, sights, n, p.executors, at))
    && exists at: seq<nat> :: ClientsAt(c, ids, sights, n, p.clients, at)
  }

  lemma ExecutorsMore(c: Claims, ids: seq<string>, sights: seq<Sight>, n: nat, es: seq<Executor>, at: seq<nat>)
    requires n < |ids| == |sights| && ExecutorsAt(c, ids, sights, n, es, at)
    ensures if First(c, ids, sights, n) && !sights[n].native
            then ExecutorsAt(c, ids, sights, n + 1, es + [Executor(ids[n], sights[n].provider)], at + [n])
            else ExecutorsAt(c, ids, sights, n + 1, es, at)
  {
    hide First;
    RisingMore(at, n);
  }

  lemma ClientsMore(c: Claims, ids: seq<string>, sights: seq<Sight>, n: nat, ms: seq<ModelClient>, at: seq<nat>)
    requires n < |ids| == |sights| && ClientsAt(c, ids, sights, n, ms, at)
    ensures if First(c, ids, sights, n) && !sights[n].native && Selected(c, ids[n]) != []
            then ClientsAt(c, ids, sights, n + 1,
                           ms + [ModelClient(ids[n], sights[n].provider, Selected(c, ids[n]))], at + [n])
            else ClientsAt(c, ids, sights, n + 1, ms, at)
  {
    hide First, Selected;
    RisingMore(at, n);
  }

  // What one record adds to the plan.
  lemma PlanStep(c: Claims, ids: seq<string>, sights: seq<Sight>, n: nat)
    requires n < |ids| == |sights|
    ensures var b, r := SecondPass(c, ids, sights, n), SecondPass(c, ids, sights, n + 1);
            var planned := First(c, ids, sights, n) && !sights[n].native;
            && r.executors == (if planned then b.executors + [Executor(ids[n], sights[n].provider)] else b.executors)
            && r.clients == if planned && Selected(c, ids[n]) != []
                            then b.clients + [ModelClient(ids[n], sights[n].provider, Selected(c, ids[n]))]
                            else b.clients
  {
    hide First, Takes, Selected;
    FirstIsUnseen(c, ids, sights, n);
  }

  lemma {:induction false} SecondPassExactly(c: Claims, ids: seq<string>, sights: seq<Sight>, n: nat)
    requires n <= |ids| == |sights|
    ensures PlannedExactly(c, ids, sights, n, SecondPass(c, ids, sights, n))
    decreases n
  {
    hide First, Selected, PlanRecord, ExecutorsAt, ClientsAt;
    if n == 0 {
      NonePlanned(c, ids, sights);
    } else {
      SecondPassExactly(c, ids, sights, n - 1);
      PlanStep(c, ids, sights, n - 1);
      var b := SecondPass(c, ids, sights, n - 1);
      var at: seq<nat> :| ExecutorsAt(c, ids, sights, n - 1, b.executors, at);
      var on: seq<nat> :| ClientsAt(c, ids, sights, n - 1, b.clients, on);
      ExecutorsMore(c, ids, sights, n - 1, b.executors, at);
      ClientsMore(c, ids, sights, n - 1, b.clients, on);
    }
  }

  lemma NonePlanned(c: Claims, ids: seq<string>, sights: seq<Sight>)
    requires |ids| == |sights|
    ensures ExecutorsAt(c, ids, sights, 0, [], []) && ClientsAt(c, ids, sights, 0, [], [])
  {
  }

  // No provider is planned twice.
  predicate OncePerProvider(p: Plan)
  {
    && (forall i :: 0 <= i < |p.clients| ==> p.clients[i].provider in p.seen)
    && (forall i, j :: 0 <= i < j < |p.clients| ==> p.clients[i].provider != p.clients[j].provider)
    && (forall i :: 0 <= i < |p.executors| ==> p.executors[i].provider in p.seen)
    && (forall i, j :: 0 <= i < j < |p.executors| ==> p.executors[i].provider != p.executors[j].provider)
  }

  lemma {:induction false} SecondPassProviders(c: Claims, ids: seq<string>, sights: seq<Sight>, n: nat)
    requires n <= |ids| == |sights|
    ensures OncePerProvider(SecondPass(c, ids, sights, n))
    decreases n
  {
    hide Takes;
    if n > 0 {
      SecondPassProviders(c, ids, sights, n - 1);
    } else {
      assert SecondPass(c, ids, sights, 0) == NO_PLAN;
    }
  }

  // The model clients that are committed have pairwise distinct providers and pairwise
  // disjoint trimmed model ids; none of those models had a native executor when it was
  // claimed, and each client comes with an executor of the same plugin and provider.
  lemma ExecutorClaims(ids: seq<string>, first: seq<Sight>, second: seq<Sight>)
    requires |ids| == |first| == |second| && Distinct(ids)
    ensures var c := FirstPass(ids, first, |ids|);
            var p := SecondPass(c, ids, second, |ids|);
            && (forall a, b :: 0 <= a < b < |p.clients| ==>
                  p.clients[a].provider != p.clients[b].provider && p.clients[a].id != p.clients[b].id
                  && Apart(p.clients[a].models, p.clients[b].models))
            && (forall a :: 0 <= a < |p.clients| ==>
                  && |p.clients[a].models| > 0
                  && Executor(p.clients[a].id, p.clients[a].provider) in p.executors
                  && exists i ::
                      0 <= i < |ids| && ids[i] == p.clients[a].id && OwnModels(first[i], p.clients[a].models))
  {
    hide Takes, First, OwnModels, Apart, FirstPass, SecondPass;
    var n, c := |ids|, FirstPass(ids, first, |ids|);
    var p := SecondPass(c, ids, second, n);
    FirstPassOk(ids, first, n);
    SecondPassProviders(c, ids, second, n);
    PlannedClients(c, ids, second, n);
    PlannedExecutors(c, ids, second, n);
    forall a | 0 <= a < |p.clients|
      ensures |p.clients[a].models| > 0 && Executor(p.clients[a].id, p.clients[a].provider) in p.executors
      ensures exists i :: 0 <= i < |ids| && ids[i] == p.clients[a].id && OwnModels(first[i], p.clients[a].models)
    {
      var i := RecordOf(c, ids, second, p, a);
    }
    assert forall a, b :: 0 <= a < b < |p.clients| ==> p.clients[a].provider != p.clients[b].provider;
    forall a, b | 0 <= a < b < |p.clients|
      ensures p.clients[a].id != p.clients[b].id && Apart(p.clients[a].models, p.clients[b].models)
    {
      var i := RecordOf(c, ids, second, p, a);
      var j := RecordOf(c, ids, second, p, b);
      assert i != j;
      if i < j {
        ApartBack(Selected(c, ids[j]), Selected(c, ids[i]));
      }
    }
  }

  lemma RecordOf(c: Claims, ids: seq<string>, sights: seq<Sight>, p: Plan, a: nat) returns (i: nat)
    requires |ids| == |sights| && p == SecondPass(c, ids, sights, |ids|) && a < |p.clients|
    ensures i < |ids| && First(c, ids, sights, i) && !sights[i].native && |Selected(c, ids[i])| > 0
    ensures p.clients[a] == ModelClient(ids[i], sights[i].provider, Selected(c, ids[i]))
  {
    hide First, SecondPass, Selected;
    PlannedClients(c, ids, sights, |ids|);
    assert p.clients[a] in p.clients;
    i :| 0 <= i < |ids| && First(c, ids, sights, i) && !sights[i].native && |Selected(c, ids[i])| > 0
      && p.clients[a] == ModelClient(ids[i], sights[i].provider, Selected(c, ids[i]));
  }

  lemma ApartBack(a: seq<string>, b: seq<string>)
    requires Apart(a, b)
    ensures Apart(b, a)
  {
    hide TrimSpace;
  }

  // A claimed model is not always registered: a record without models that comes first
  // takes the provider, and the record that claimed the model gets no client.
  lemma ClaimedNotRegistered()
    ensures var ids, sights := ["a", "b"], [Sight("p", false, [], {}), Sight("p", false, ["m"], {})];
            var c := FirstPass(ids, sights, 2);
            Selected(c, "b") == ["m"] && SecondPass(c, ids, sights, 2).clients == []
  {
    var ids, sights := ["a", "b"], [Sight("p", false, [], {}), Sight("p", false, ["m"], {})];
    assert TrimSpace("m") == "m";
    var c := ClaimModel(NO_CLAIMS, "b", sights[1], "m");
    assert ClaimModels(NO_CLAIMS, "b", sights[1], 1) == c;
    assert FirstPass(ids, sights, 1) == NO_CLAIMS && FirstPass(ids, sights, 2) == c;
    assert SecondPass(c, ids, sights, 1) == Plan({"p"}, [Executor("a", "p")], []);
  }

  // ---- Models per provider -----------------------------------------------------------------------

  // appendModelsForProvider's inner loop: ids not seen yet, and not blank.
  function Appended(known: seq<string>, models: seq<string>, k: nat): (r: seq<string>)
    requires k <= |models|
  {
    if k == 0 then known
    else
      var before, id := Appended(known, models, k - 1), TrimSpace(models[k - 1]);
      if id == "" || id in Ids(before) then before else before + [models[k - 1]]
  }

  function Ids(models: seq<string>): set<string>
  {
    set i | 0 <= i < |models| :: TrimSpace(models[i])
  }

  predicate NoRepeatedIds(models: seq<string>)
  {
    forall i, j :: 0 <= i < j < |models| ==> TrimSpace(models[i]) != TrimSpace(models[j])
  }

  method AppendModelsForProvider(out: map<string, seq<string>>, provider: string, models: seq<string>)
    returns (r: map<string, seq<string>>)
    ensures var p := ToLower(TrimSpace(provider));
            var known := if p in out then out[p] else [];
            r == if p == "" || Appended(known, models, |models|) == known then out
                else out[p := Appended(known, models, |models|)]
    ensures var p := ToLower(TrimSpace(provider));
            var known, now := if p in out then out[p] else [], if p in r then r[p] else [];
            && (r == out || (p != "" && r == out[p := now]))
            && (p != "" && NoRepeatedIds(known) ==> AppendedNew(known, models, now))
  {
    AppendingExactly(if ToLower(TrimSpace(provider)) in out then out[ToLower(TrimSpace(provider))] else [], models);
    hide TrimSpace, ToLower, NoRepeatedIds, AppendedNew, Appended, Ids;
    r := out;
    var p := ToLower(TrimSpace(provider));
    if p == "" || |models| == 0 {
      return;
    }
    var known := if p in out then out[p] else [];
    var all := WithNew(known, models);
    if all != known {
      r := out[p := all];
    }
  }

  method WithNew(known: seq<string>, models: seq<string>) returns (all: seq<string>)
    ensures all == Appended(known, models, |models|)
  {
    hide TrimSpace;
    var seen := SeenIds(known);
    all := known;
    for k := 0 to |models|
      invariant all == Appended(known, models, k) && seen == Ids(all) - {""}
    {
      var id := TrimSpace(models[k]);
      if id == "" || id in seen {
        continue;
      }
      IdsMore(all, models[k]);
      seen := seen + {id};
      all := all + [models[k]];
    }
  }

  method SeenIds(models: seq<string>) returns (seen: set<string>)
    ensures seen == Ids(models) - {""}
  {
    hide TrimSpace;
    seen := {};
    for i := 0 to |models|
      invariant seen == Ids(models[..i]) - {""}
    {
      assert models[..i + 1] == models[..i] + [models[i]];
      IdsMore(models[..i], models[i]);
      if TrimSpace(models[i]) != "" {
        seen := seen + {TrimSpace(models[i])};
      }
    }
    assert models[..|models|] == models;
  }

  lemma IdsMore(models: seq<string>, m: string)
    ensures Ids(models + [m]) == Ids(models) + {TrimSpace(m)}
  {
    hide TrimSpace;
    var all := models + [m];
    forall id | id in Ids(models) + {TrimSpace(m)} ensures id in Ids(all) {
      if id == TrimSpace(m) {
        assert all[|models|] == m;
      } else {
        var i :| 0 <= i < |models| && TrimSpace(models[i]) == id;
        assert all[i] == models[i];
      }
    }
  }

  // A provider's list never repeats an id, and ends up with every id that is not blank.
  lemma {:induction false} AppendedIds(known: seq<string>, models: seq<string>, k: nat)
    requires k <= |models| && NoRepeatedIds(known)
    ensures NoRepeatedIds(Appended(known, models, k)) && known <= Appended(known, models, k)
    ensures Ids(Appended(known, models, k)) == Ids(known) + (Ids(models[..k]) - {""})
    decreases k
  {
    hide TrimSpace;
    if k > 0 {
      AppendedIds(known, models, k - 1);
      var before, m := Appended(known, models, k - 1), models[k - 1];
      assert models[..k] == models[..k - 1] + [m];
      IdsMore(models[..k - 1], m);
      IdsMore(before, m);
      if TrimSpace(m) != "" && TrimSpace(m) !in Ids(before) {
        NewId(before, m);
      }
    }
  }

  // Not blank, and neither known nor listed before.
  predicate New(known: seq<string>, models: seq<string>, k: nat)
    requires k < |models|
  {
    var id := TrimSpace(models[k]);
    && id != ""
    && (forall m :: 0 <= m < |known| ==> TrimSpace(known[m]) != id)
    && forall l :: 0 <= l < k ==> TrimSpace(models[l]) != id
  }

  // The known list, then exactly the new ones of the first n, in their order.
  ghost predicate AppendedAt(known: seq<string>, models: seq<string>, n: nat, r: seq<string>, at: seq<nat>)
    requires n <= |models|
  {
    && Rising(at, n)
    && |r| == |known| + |at| && known <= r
    && (forall m :: 0 <= m < |at| ==> r[|known| + m] == models[at[m]])
    && forall k :: 0 <= k < n ==> (k in at <==> New(known, models, k))
  }

  ghost predicate AppendedNew(known: seq<string>, models: seq<string>, r: seq<string>)
  {
    exists at: seq<nat> :: AppendedAt(known, models, |models|, r, at)
  }

  lemma {:induction false} AppendedExactly(known: seq<string>, models: seq<string>, n: nat) returns (at: seq<nat>)
    requires n <= |models| && NoRepeatedIds(known)
    ensures AppendedAt(known, models, n, Appended(known, models, n), at)
    decreases n
  {
    hide TrimSpace, Ids, New;
    at := [];
    if n > 0 {
      at := AppendedExactly(known, models, n - 1);
      AppendedIds(known, models, n - 1);
      NewIs(known, models, n - 1);
      RisingMore(at, n - 1);
      if New(known, models, n - 1) { at := at + [n - 1]; }
    }
  }

  lemma AppendingExactly(known: seq<string>, models: seq<string>)
    ensures NoRepeatedIds(known) ==> AppendedNew(known, models, Appended(known, models, |models|))
  {
    hide NoRepeatedIds, AppendedAt;
    if NoRepeatedIds(known) {
      var at := AppendedExactly(known, models, |models|);
    }
  }

  lemma NewIs(known: seq<string>, models: seq<string>, k: nat)
    requires k < |models|
    ensures var id := TrimSpace(models[k]);
            New(known, models, k) <==> id != "" && id !in Ids(known) + (Ids(models[..k]) - {""})
  {
    hide TrimSpace;
    var id := TrimSpace(models[k]);
    if l :| 0 <= l < k && TrimSpace(models[l]) == id {
      assert models[..k][l] == models[l];
    }
  }

  lemma NewId(models: seq<string>, m: string)
    requires NoRepeatedIds(models) && TrimSpace(m) !in Ids(models)
    ensures NoRepeatedIds(models + [m])
  {
    hide TrimSpace;
    forall i | 0 <= i < |models| ensures TrimSpace(models[i]) != TrimSpace(m) {
      assert TrimSpace(models[i]) in Ids(models);
    }
  }

  // ---- The commit --------------------------------------------------------------------------------

  // An executor of this host, for one of its plugins, or anybody else's.
  datatype Served = Own(id: string) | Native

  // The executor manager, and what the host remembers of the last commit.
  datatype Board = Board(executors: map<string, Served>, providers: set<string>)

  function OwnProviders(executors: map<string, Served>): set<string>
  {
    set p | p in executors && executors[p].Own?
  }

  function NativeProviders(executors: map<string, Served>): set<string>
  {
    set p | p in executors && executors[p].Native?
  }

  function RegisterAll(executors: map<string, Served>, es: seq<Executor>, n: nat): map<string, Served>
    requires n <= |es|
  {
    if n == 0 then executors
    else if es[n - 1].provider == "" then RegisterAll(executors, es, n - 1)
    else RegisterAll(executors, es, n - 1)[es[n - 1].provider := Own(es[n - 1].id)]
  }

  // The manager and the host's books, updated in place by commitExecutorState.
  class ExecutorBoard {
    var executors: map<string, Served>
    var providers: set<string>
    // The model registry's clients, and which of them the host remembers.
    var clients: map<string, ModelClient>
    var clientIDs: set<string>

    ghost function View(): Board
      reads this
    {
      Board(executors, providers)
    }

    // The host's own executors are those of its last commit.
    ghost predicate Valid()
      reads this
    {
      OwnProviders(executors) == providers
    }

    constructor ()
      ensures View() == Board(map[], {}) && Valid()
    {
      executors, providers, clients, clientIDs := map[], {}, map[], {};
    }

    // RegisterExecutors on records with these ids, given what its two passes see and whether
    // the snapshot it started from is still the published one when it commits.
    method RegisterExecutors(ids: seq<string>, first: seq<Sight>, second: seq<Sight>, current: bool)
      returns (c: Claims, p: Plan)
      requires |ids| == |first| == |second|
      modifies this
      ensures c == FirstPass(ids, first, |ids|) && p == SecondPass(c, ids, second, |ids|)
      ensures View() == if current then Committed(old(View()), p.executors) else old(View())
      ensures old(Valid()) ==> Valid()
      ensures current ==> (Valid() <==> Orphans(old(View())) <= ProvidersOf(p.executors))
      ensures SeesNatives(second, old(executors)) ==> NativeProviders(executors) == NativeProviders(old(executors))
      ensures Distinct(ids) ==> forall i :: 0 <= i < |ids| ==> ClaimedExactly(c, ids, first, i)
      ensures PlannedExactly(c, ids, second, |ids|, p)
      ensures current ==> Serves(old(View()), View(), p.executors)
      ensures current ==> Offers(old(clients), old(clientIDs), clients, clientIDs, p.clients)
      ensures !current ==> unchanged(this)
    {
      hide ClaimedExactly, PlannedExactly, FirstPass, SecondPass, Committed;
      hide Serves, Offers;
      c, p := DecideExecutors(ids, first, second);
      PlannedNamed(c, ids, second, |ids|);
      CommitServes(View(), p.executors);
      if SeesNatives(second, executors) {
        NativesStay(View(), c, ids, second);
      }
      Commit(p.executors, p.clients, current);
    }

    // What ShutdownAll does here: the books are emptied, the manager is not told.
    method ShutdownAll()
      modifies this
      ensures View() == ShutDown(old(View()))
      ensures Valid() <==> OwnProviders(old(executors)) == {}
      ensures providers == {} && clientIDs == {} && executors == old(executors) && clients == old(clients)
    {
      providers, clientIDs := {}, {};
    }

    // commitExecutorState: the manager under the mutex, then the model registry.
    method Commit(es: seq<Executor>, ms: seq<ModelClient>, current: bool)
      modifies this
      ensures View() == if current then Committed(old(View()), es) else old(View())
      ensures current ==> Serves(old(View()), View(), es)
      ensures current ==> Offers(old(clients), old(clientIDs), clients, clientIDs, ms)
      ensures !current ==> unchanged(this)
    {
      if !current {
        return;
      }
      CommitExecutors(es);
      CommitClients(ms);
    }

    method CommitExecutors(es: seq<Executor>)
      modifies this`executors, this`providers
      ensures View() == Committed(old(View()), es) && Serves(old(View()), View(), es)
    {
      var stale := providers - ProvidersOf(es);
      providers := ProvidersOf(es);
      for n := 0 to |es|
        invariant executors == RegisterAll(old(executors), es, n) && providers == ProvidersOf(es)
      {
        if es[n].provider == "" {
          continue;
        }
        executors := executors[es[n].provider := Own(es[n].id)];
      }
      ghost var registered := executors;
      ghost var all := stale;
      while stale != {}
        invariant stale <= all && providers == ProvidersOf(es)
        invariant forall p :: p in executors <==> p in registered && !(p in all && p !in stale && registered[p].Own?)
        invariant forall p :: p in executors ==> executors[p] == registered[p]
        decreases stale
      {
        var p :| p in stale;
        stale := stale - {p};
        if p in executors && executors[p].Own? {
          executors := executors - {p};
        }
      }
      CommittedServes(old(View()), es);
    }

    method CommitClients(ms: seq<ModelClient>)
      modifies this`clients, this`clientIDs
      ensures Offers(old(clients), old(clientIDs), clients, clientIDs, ms)
    {
      var next := IDsOf(ms);
      var stale := clientIDs - next;
      clientIDs := next;
      var registered := RegisterClients(clients, ms);
      clients := registered - stale;
    }
  }

  method IDsOf(ms: seq<ModelClient>) returns (ids: set<string>)
    ensures forall id :: id in ids <==> exists n :: 0 <= n < |ms| && ClientID(ms[n]) == id
  {
    hide ClientID;
    ids := {};
    for n := 0 to |ms|
      invariant forall id :: id in ids <==> exists m :: 0 <= m < n && ClientID(ms[m]) == id
    {
      ids := ids + {ClientID(ms[n])};
    }
  }

  predicate LastClient(ms: seq<ModelClient>, k: nat, n: nat)
    requires k < n <= |ms|
  {
    forall m :: k < m < n ==> ClientID(ms[m]) != ClientID(ms[k])
  }

  function WithClients(before: map<string, ModelClient>, ms: seq<ModelClient>, n: nat): map<string, ModelClient>
    requires n <= |ms|
  {
    if n == 0 then before else WithClients(before, ms, n - 1)[ClientID(ms[n - 1]) := ms[n - 1]]
  }

  lemma {:induction false} LastStays(before: map<string, ModelClient>, ms: seq<ModelClient>, n: nat, k: nat)
    requires k < n <= |ms| && LastClient(ms, k, n)
    ensures var r := WithClients(before, ms, n); ClientID(ms[k]) in r && r[ClientID(ms[k])] == ms[k]
    decreases n
  {
    hide ClientID;
    if k < n - 1 {
      LastStays(before, ms, n - 1, k);
    }
  }

  lemma {:induction false} OtherStays(before: map<string, ModelClient>, ms: seq<ModelClient>, n: nat, id: string)
    requires n <= |ms| && forall m :: 0 <= m < n ==> ClientID(ms[m]) != id
    ensures var r := WithClients(before, ms, n); (id in r <==> id in before) && (id in r ==> r[id] == before[id])
    decreases n
  {
    hide ClientID;
    if n > 0 {
      OtherStays(before, ms, n - 1, id);
    }
  }

  method RegisterClients(before: map<string, ModelClient>, ms: seq<ModelClient>)
    returns (after: map<string, ModelClient>)
    ensures forall k :: 0 <= k < |ms| && LastClient(ms, k, |ms|) ==>
              ClientID(ms[k]) in after && after[ClientID(ms[k])] == ms[k]
    ensures forall id :: (forall n :: 0 <= n < |ms| ==> ClientID(ms[n]) != id) ==>
              (id in after <==> id in before) && (id in after ==> after[id] == before[id])
  {
    hide ClientID, LastClient;
    after := before;
    for n := 0 to |ms|
      invariant after == WithClients(before, ms, n)
    {
      after := after[ClientID(ms[n]) := ms[n]];
    }
    forall k | 0 <= k < |ms| && LastClient(ms, k, |ms|)
      ensures ClientID(ms[k]) in after && after[ClientID(ms[k])] == ms[k]
    {
      LastStays(before, ms, |ms|, k);
    }
    forall id | forall n :: 0 <= n < |ms| ==> ClientID(ms[n]) != id
      ensures (id in after <==> id in before) && (id in after ==> after[id] == before[id])
    {
      OtherStays(before, ms, |ms|, id);
    }
  }

  // pluginExecutorModelClientID
  function ClientID(m: ModelClient): string
  {
    "plugin:" + m.id + ":" + m.provider + ":executor"
  }

  // Register what is planned, then drop the host's own executors of providers it no longer has.
  function Committed(b: Board, es: seq<Executor>): Board
  {
    var registered := RegisterAll(b.executors, es, |es|);
    Board(map p | p in registered && !(p in b.providers && p !in ProvidersOf(es) && registered[p].Own?) ::
        registered[p], ProvidersOf(es))
  }

  // The manager has these executors, for each provider the last one; of the others it has
  // all but those the host remembered.
  ghost predicate Serves(b: Board, r: Board, es: seq<Executor>)
  {
    && (forall p :: p in r.providers <==> exists n :: 0 <= n < |es| && es[n].provider == p)
    && (forall n :: 0 <= n < |es| && es[n].provider != "" && LastOf(es, n, |es|)
            ==> es[n].provider in r.executors && r.executors[es[n].provider] == Own(es[n].id))
    && forall p :: p !in r.providers ==>
         && (p in r.executors <==> p in b.executors && !(p in b.providers && b.executors[p].Own?))
         && (p in r.executors ==> r.executors[p] == b.executors[p])
  }

  predicate LastOf(es: seq<Executor>, k: nat, n: nat)
    requires k < n <= |es|
  {
    forall m :: k < m < n ==> es[m].provider != es[k].provider
  }

  // The model registry has these clients; of the others all but those the host remembered.
  ghost predicate Offers(before: map<string, ModelClient>, known: set<string>, after: map<string, ModelClient>,
          ids: set<string>, ms: seq<ModelClient>)
  {
    && (forall id :: id in ids <==> exists n :: 0 <= n < |ms| && ClientID(ms[n]) == id)
    && (forall n :: 0 <= n < |ms| && LastClient(ms, n, |ms|)
            ==> ClientID(ms[n]) in after && after[ClientID(ms[n])] == ms[n])
    && forall id :: id !in ids ==>
         && (id in after <==> id in before && id !in known)
         && (id in after ==> after[id] == before[id])
  }

  lemma {:induction false} RegisterAllLast(executors: map<string, Served>, es: seq<Executor>, n: nat, k: nat)
    requires k < n <= |es| && es[k].provider != "" && LastOf(es, k, n)
    ensures var r := RegisterAll(executors, es, n);
            es[k].provider in r && r[es[k].provider] == Own(es[k].id)
    decreases n
  {
    if k < n - 1 {
      RegisterAllLast(executors, es, n - 1, k);
    }
  }

  lemma {:induction false} RegisterAllOthers(executors: map<string, Served>, es: seq<Executor>, n: nat, p: string)
    requires n <= |es| && forall k :: 0 <= k < n ==> es[k].provider != p
    ensures var r := RegisterAll(executors, es, n);
            (p in r <==> p in executors) && (p in r ==> r[p] == executors[p])
    decreases n
  {
    if n > 0 {
      RegisterAllOthers(executors, es, n - 1, p);
    }
  }

  lemma CommittedServes(b: Board, es: seq<Executor>)
    ensures Serves(b, Committed(b, es), es)
  {
    var r := Committed(b, es);
    forall n | 0 <= n < |es| && es[n].provider != "" && LastOf(es, n, |es|)
      ensures es[n].provider in r.executors && r.executors[es[n].provider] == Own(es[n].id)
    {
      RegisterAllLast(b.executors, es, |es|, n);
    }
    forall p | p !in ProvidersOf(es)
      ensures p in r.executors <==> p in b.executors && !(p in b.providers && b.executors[p].Own?)
      ensures p in r.executors ==> r.executors[p] == b.executors[p]
    {
      RegisterAllOthers(b.executors, es, |es|, p);
    }
  }

  predicate AllNamed(es: seq<Executor>)
  {
    forall i :: 0 <= i < |es| ==> es[i].provider != ""
  }

  lemma {:induction false} RegisterAllServes(executors: map<string, Served>, es: seq<Executor>, n: nat)
    requires n <= |es| && AllNamed(es)
    ensures var r := RegisterAll(executors, es, n);
            && (forall i :: 0 <= i < n ==> es[i].provider in r && r[es[i].provider].Own?)
            && (forall p ::
                p !in ProvidersOf(es[..n]) ==> (p in r <==> p in executors) && (p in r ==> r[p] == executors[p]))
    decreases n
  {
    if n > 0 {
      RegisterAllServes(executors, es, n - 1);
      assert es[..n][n - 1] == es[n - 1];
      forall p | p in ProvidersOf(es[..n - 1]) ensures p in ProvidersOf(es[..n]) {
        var i :| 0 <= i < n - 1 && es[..n - 1][i].provider == p;
        assert es[..n][i].provider == p;
      }
    }
  }

  // Planned executors always name a provider.
  lemma {:induction false} PlannedNamed(c: Claims, ids: seq<string>, sights: seq<Sight>, n: nat)
    requires n <= |ids| == |sights|
    ensures AllNamed(SecondPass(c, ids, sights, n).executors)
    decreases n
  {
    if n > 0 {
      PlannedNamed(c, ids, sights, n - 1);
    } else {
      assert SecondPass(c, ids, sights, 0) == NO_PLAN;
    }
  }

  // The host's executors that its books have lost.
  function Orphans(b: Board): set<string>
  {
    OwnProviders(b.executors) - b.providers
  }

  // The host's executors afterwards are the planned ones and the orphans, so the books are
  // right if and only if every orphan is planned anew; they are when they were right before.
  // Nobody else's executor is touched, except one that serves a planned provider: that one is
  // replaced.
  lemma CommitServes(b: Board, es: seq<Executor>)
    requires AllNamed(es)
    ensures var r := Committed(b, es);
            && OwnProviders(r.executors) == ProvidersOf(es) + Orphans(b)
            && r.providers == ProvidersOf(es)
            && (OwnProviders(r.executors) == r.providers <==> Orphans(b) <= ProvidersOf(es))
            && NativeProviders(r.executors) == NativeProviders(b.executors) - ProvidersOf(es)
            && (NativeProviders(r.executors) == NativeProviders(b.executors) <==>
                NativeProviders(b.executors) !! ProvidersOf(es))
  {
    var r, registered := Committed(b, es), RegisterAll(b.executors, es, |es|);
    RegisteredServes(b.executors, es);
    assert OwnProviders(r.executors) == ProvidersOf(es) + Orphans(b);
    assert NativeProviders(r.executors) == NativeProviders(b.executors) - ProvidersOf(es);
  }

  lemma RegisteredServes(executors: map<string, Served>, es: seq<Executor>)
    requires AllNamed(es)
    ensures var r := RegisterAll(executors, es, |es|);
            forall p :: if p in ProvidersOf(es) then p in r && r[p].Own?
                        else (p in r <==> p in executors) && (p in r ==> r[p] == executors[p])
  {
    RegisterAllServes(executors, es, |es|);
    assert es[..|es|] == es;
  }

  // ---- Which executors of others are replaced ----------------------------------------------------

  // The second pass planned this provider: the first record to compete for it saw nobody there.
  predicate TakenUnseen(c: Claims, ids: seq<string>, sights: seq<Sight>, p: string)
    requires |ids| == |sights|
  {
    exists i :: 0 <= i < |ids| && First(c, ids, sights, i) && !sights[i].native && sights[i].provider == p
  }

  // An executor of somebody else is replaced exactly when it serves, at the commit, a provider
  // for which the second pass saw nobody.
  lemma NativesReplaced(b: Board, c: Claims, ids: seq<string>, sights: seq<Sight>)
    requires |ids| == |sights|
    ensures var r := Committed(b, SecondPass(c, ids, sights, |ids|).executors);
            && NativeProviders(r.executors) <= NativeProviders(b.executors)
            && forall p :: p in NativeProviders(b.executors) ==>
                 (p !in NativeProviders(r.executors) <==> TakenUnseen(c, ids, sights, p))
  {
    hide First, SecondPass, Committed, NativeProviders;
    var es := SecondPass(c, ids, sights, |ids|).executors;
    PlannedNamed(c, ids, sights, |ids|);
    CommitServes(b, es);
    PlannedExecutors(c, ids, sights, |ids|);
    forall p ensures p in ProvidersOf(es) <==> TakenUnseen(c, ids, sights, p) {
      if p in ProvidersOf(es) {
        var k :| 0 <= k < |es| && es[k].provider == p;
        assert es[k] in es;
      }
      if i :| 0 <= i < |ids| && First(c, ids, sights, i) && !sights[i].native && sights[i].provider == p {
        assert Executor(ids[i], p) in es;
      }
    }
  }

  // What the second pass saw is still so.
  ghost predicate SeesNatives(sights: seq<Sight>, executors: map<string, Served>)
  {
    forall i :: 0 <= i < |sights| && sights[i].provider != "" ==>
      (sights[i].native <==> sights[i].provider in NativeProviders(executors))
  }

  // Then nobody else's executor goes.
  lemma NativesStay(b: Board, c: Claims, ids: seq<string>, sights: seq<Sight>)
    requires |ids| == |sights| && SeesNatives(sights, b.executors)
    ensures NativeProviders(Committed(b, SecondPass(c, ids, sights, |ids|).executors).executors)
        == NativeProviders(b.executors)
  {
    hide SecondPass, Committed;
    NativesReplaced(b, c, ids, sights);
  }

  // Otherwise it can: an executor that came to serve "p" after the second pass looked is
  // replaced by the plugin's.
  lemma NativeReplaced()
    ensures var ids, sights, b := ["a"], [Sight("p", false, [], {})], Board(map["p" := Native], {});
            Committed(b, SecondPass(FirstPass(ids, sights, 1), ids, sights, 1).executors)
                == Board(map["p" := Own("a")], {"p"})
  {
    var ids, sights, b := ["a"], [Sight("p", false, [], {})], Board(map["p" := Native], {});
    assert FirstPass(ids, sights, 1) == FirstPass(ids, sights, 0) == NO_CLAIMS;
    assert SecondPass(NO_CLAIMS, ids, sights, 0) == NO_PLAN;
    var es := [Executor("a", "p")];
    assert SecondPass(NO_CLAIMS, ids, sights, 1) == Plan({"p"}, es, []);
    assert RegisterAll(b.executors, es, 0) == b.executors;
    assert RegisterAll(b.executors, es, 1) == map["p" := Own("a")];
    assert es[0].provider in ProvidersOf(es);
  }

  // ---- After ShutdownAll ---------------------------------------------------------------------------

  function ShutDown(b: Board): Board
  {
    b.(providers := {})
  }

  // The board after the first n of these commits.
  function CommittedAll(b: Board, plans: seq<seq<Executor>>, n: nat): Board
    requires n <= |plans|
  {
    if n == 0 then b else Committed(CommittedAll(b, plans, n - 1), plans[n - 1])
  }

  // An executor that the host has when everything is shut down stays with the manager through
  // any number of later commits, until one plans its provider again.
  lemma {:induction false} OrphanStays(b: Board, plans: seq<seq<Executor>>, n: nat, p: string)
    requires n <= |plans| && (forall i :: 0 <= i < |plans| ==> AllNamed(plans[i]) && p !in ProvidersOf(plans[i]))
    requires p in OwnProviders(b.executors)
    ensures p in Orphans(CommittedAll(ShutDown(b), plans, n))
    decreases n
  {
    hide Committed, ProvidersOf, AllNamed;
    if n > 0 {
      OrphanStays(b, plans, n - 1, p);
      CommitServes(CommittedAll(ShutDown(b), plans, n - 1), plans[n - 1]);
    }
  }
}
