// What counts as a default, and what pruning leaves: no default and nothing emptied under a key.
module YamlDefaults {
  import opened Text
  import opened YamlTree
  import opened YamlMeaning

  // ---- The tables ---------------------------------------------------------------------------

  // Tag and value of the scalars that say nothing; a null says nothing whatever its value.
  const ZERO_SCALARS: set<(string, string)> := {
    ("!!bool", "false"), ("!!int", "0"), ("!!int", "0.0"), ("!!float", "0"), ("!!float", "0.0"), ("!!str", "")
  }

  // Path, tag and value of the defaults that a config starts with.
  const KNOWN_DEFAULTS: set<(string, string, string)> := {
    ("pprof.addr", "!!str", "127.0.0.1:8316"),
    ("remote-management.panel-github-repository", "!!str",
     "https://github.com/router-for-me/Cli-Proxy-API-Management-Center"),
    ("plugins.dir", "!!str", "plugins"),
    ("routing.strategy", "!!str", "round-robin"),
    ("error-logs-max-files", "!!int", "10")
  }

  predicate ZeroScalar(t: Tree)
  {
    t.kind == Scalar && (t.tag == "!!null" || (t.tag, t.value) in ZERO_SCALARS)
  }

  predicate Listed(path: seq<string>, t: Tree)
  {
    |path| > 0 && t.kind == Scalar && (Join(path, "."), t.tag, t.value) in KNOWN_DEFAULTS
  }

  // ---- Zero, leaf by leaf ---------------------------------------------------------------------

  predicate Leads(t: Tree, i: nat)
  {
    i < |t.kids| && (t.kind == Sequence || (t.kind == Mapping && i % 2 == 1))
  }

  // The node that these steps lead to, through list items and the values of mappings.
  function NodeAt(t: Tree, steps: seq<nat>): Option<Tree>
    decreases |steps|
  {
    if |steps| == 0 then Some(t) else if Leads(t, steps[0]) then NodeAt(t.kids[steps[0]], steps[1..]) else None
  }

  predicate SaysNothing(t: Tree)
  {
    t.kind == Sequence || t.kind == Mapping || ZeroScalar(t)
  }

  lemma ZeroHere(t: Tree)
    ensures t.kind != Sequence && t.kind != Mapping ==> (IsZero(t) <==> ZeroScalar(t))
  {
  }

  ghost predicate NothingSaid(t: Tree)
  {
    forall steps :: NodeAt(t, steps).Some? ==> SaysNothing(NodeAt(t, steps).value)
  }

  // A value is zero if and only if everything in it is a zero scalar, a list or a mapping.
  lemma {:induction false} ZeroIs(t: Tree)
    ensures IsZero(t) <==> NothingSaid(t)
    decreases t
  {
    hide ZeroScalar, IsZero;
    if NothingSaid(t) {
      assert NodeAt(t, []) == Some(t);
      forall i: nat | Leads(t, i) ensures IsZero(t.kids[i]) {
        NothingInside(t, i);
        ZeroIs(t.kids[i]);
      }
      AllZero(t);
    }
    if IsZero(t) {
      forall steps | NodeAt(t, steps).Some? ensures SaysNothing(NodeAt(t, steps).value) { ZeroAt(t, steps); }
    }
  }

  lemma NothingInside(t: Tree, i: nat)
    requires NothingSaid(t) && Leads(t, i)
    ensures NothingSaid(t.kids[i])
  {
    hide SaysNothing;
    forall steps | NodeAt(t.kids[i], steps).Some? ensures SaysNothing(NodeAt(t.kids[i], steps).value) {
      assert ([i] + steps)[1..] == steps;
      assert NodeAt(t, [i] + steps) == NodeAt(t.kids[i], steps);
    }
  }

  lemma {:induction false} ZeroAt(t: Tree, steps: seq<nat>)
    requires IsZero(t) && NodeAt(t, steps).Some?
    ensures SaysNothing(NodeAt(t, steps).value)
    decreases |steps|
  {
    if |steps| == 0 {
      ZeroHere(t);
    } else {
      ZeroInside(t, steps[0]);
      ZeroAt(t.kids[steps[0]], steps[1..]);
    }
  }

  lemma AllZero(t: Tree)
    requires SaysNothing(t) && forall i: nat :: Leads(t, i) ==> IsZero(t.kids[i])
    ensures IsZero(t)
  {
    ZeroHere(t);
    forall i: nat | i < |t.kids| && (t.kind == Sequence || (t.kind == Mapping && i % 2 == 1))
      ensures IsZero(t.kids[i])
    {
      assert Leads(t, i);
    }
  }

  lemma ZeroInside(t: Tree, i: nat)
    requires IsZero(t) && Leads(t, i)
    ensures IsZero(t.kids[i])
  {
  }

  // A known default is a zero value or one of the listed scalars at its path.
  lemma DefaultIs(path: seq<string>, t: Tree)
    ensures IsDefault(path, t) <==> IsZero(t) || Listed(path, t)
  {
    hide IsZero, Join;
  }

  // ---- After pruning ----------------------------------------------------------------------------

  // Under every key, at any depth, stands something that is neither an empty list or mapping,
  // nor a zero scalar, nor a listed default.
  predicate Clean(path: seq<string>, t: Tree)
    decreases t
  {
    match t.kind
    case Mapping => forall i :: 0 < i < |t.kids| && i % 2 == 1 ==> CleanPair(path, t, i)
    case Sequence => forall i :: 0 <= i < |t.kids| ==> Clean(path, t.kids[i])
    case _ => true
  }

  predicate CleanPair(path: seq<string>, t: Tree, i: nat)
    requires 0 < i < |t.kids|
    decreases t, 0
  {
    var child, v := path + [t.kids[i - 1].value], t.kids[i];
    && !((v.kind == Mapping || v.kind == Sequence) && |v.kids| == 0)
    && !ZeroScalar(v) && !Listed(child, v)
    && Clean(child, v)
  }

  predicate CleanPairs(path: seq<string>, t: Tree)
  {
    forall i :: 0 < i < |t.kids| && i % 2 == 1 ==> CleanPair(path, t, i)
  }

  lemma {:induction false} PruneClean(path: seq<string>, t: Tree)
    ensures Clean(path, Prune(path, t))
    decreases t, 1
  {
    match t.kind
    case Mapping =>
      var r := t.(kids := PrunePairs(path, t, |t.kids|));
      assert Prune(path, t) == r;
      PairsClean(path, t, |t.kids|);
      CleanMapping(path, r);
    case Sequence =>
      forall i | 0 <= i < |t.kids| ensures Clean(path, Prune(path, t.kids[i])) { PruneClean(path, t.kids[i]); }
    case _ =>
  }

  lemma CleanMapping(path: seq<string>, r: Tree)
    requires r.kind == Mapping && CleanPairs(path, r)
    ensures Clean(path, r)
  {
    hide CleanPair;
    forall i | 0 < i < |r.kids| && i % 2 == 1 ensures CleanPair(path, r, i) {}
  }

  lemma {:induction false} PairsClean(path: seq<string>, t: Tree, n: nat)
    requires n <= |t.kids|
    ensures CleanPairs(path, t.(kids := PrunePairs(path, t, n)))
    decreases t, 0, n
  {
    hide Survives, IsDefault, IsEmptied, Prune, Clean, ZeroScalar, Listed;
    if n >= 2 {
      var k := if n % 2 == 1 then n - 1 else n - 2;
      PairsClean(path, t, k);
      PrunePairsEven(path, t, k);
      if n % 2 == 0 && Survives(path, t, n - 2) {
        var child := path + [t.kids[n - 2].value];
        PruneClean(child, t.kids[n - 1]);
        SurvivorClean(path, t, n - 2);
        var before, r := t.(kids := PrunePairs(path, t, k)), t.(kids := PrunePairs(path, t, n));
        forall i | 0 < i < |r.kids| && i % 2 == 1 ensures CleanPair(path, r, i) {
          if i < |before.kids| { assert CleanPair(path, before, i); }
        }
      }
    }
  }

  lemma SurvivorClean(path: seq<string>, t: Tree, i: nat)
    requires i + 1 < |t.kids| && Survives(path, t, i)
    ensures var child := path + [t.kids[i].value];
            var v := Prune(child, t.kids[i + 1]);
            && !((v.kind == Mapping || v.kind == Sequence) && |v.kids| == 0)
            && !ZeroScalar(v) && !Listed(child, v)
  {
    hide Join, PrunePairs;
    var child := path + [t.kids[i].value];
    DefaultIs(child, t.kids[i + 1]);
    ZeroHere(t.kids[i + 1]);
  }

  // A key that the merge adds has a clean value that says something and is no listed default.
  lemma NewKeysClean(path: seq<string>, d: Tree, s: Tree, i: nat)
    requires WholePairs(d) && Proper(s) && d.kind == Mapping && s.kind == Mapping && i + 1 < |s.kids| && i % 2 == 0
    requires FindKey(d.kids, s.kids[i].value) < 0
    ensures var r, child := MergeNode(path, d, s), path + [s.kids[i].value];
            var at := FindKey(r.kids, s.kids[i].value);
            at >= 0 ==> var v := r.kids[at + 1]; Clean(child, v) && !NothingSaid(v) && !Listed(child, v)
  {
    hide Clean, Prune, IsDefault, IsZero, NothingSaid, Listed;
    MergeMappingClosed(path, d, s);
    ClosedLookupNew(path, d.kids, s, i);
    var child := path + [s.kids[i].value];
    var v := Prune(child, s.kids[i + 1]);
    PruneClean(child, s.kids[i + 1]);
    DefaultIs(child, v);
    ZeroIs(v);
  }

  // A null of dst stays when src has an empty list; any other node becomes that list.
  lemma EmptyListKept(path: seq<string>, d: Tree, s: Tree)
    requires s.kind == Sequence && |s.kids| == 0
    ensures var r := MergeNode(path, d, s);
            if d.kind == Scalar && d.tag == "!!null" then r == d
            else r == d.(kind := Sequence, tag := if d.kind == Sequence then d.tag else "!!seq", kids := [])
  {
  }
}
