/**
  The failover chain: a depth-first walk over model specs, some of them composed on the fly
  (src/providers/candidate-planner.ts).
 */
module Planner {
  import opened Common

  datatype ModelId = ModelId(provider: string, model: string)

  datatype Candidate = Candidate(spec: string, accountRef: Option<string>, healthKey: string)

  datatype Sticky = Sticky(spec: string, nextPrimaryRetryAt: real)

  /**
    What the router hands to the planner. `expand` lists the candidates of a provider's model,
    `providersFor` the providers serving a bare model, already filtered and ordered.
   */
  datatype Tables = Tables(
    failovers: map<string, seq<string>>,
    equivalents: map<string, seq<string>>,
    isProvider: string -> bool,
    expand: (string, string) -> seq<Candidate>,
    providersFor: string -> seq<string>)

  // ------------------------------------------------------------ model specs

  function Join(provider: string, model: string): string {
    provider + "/" + model
  }

  function TryParse(spec: string): Option<ModelId> {
    if spec == "" then None
    else if spec[0] == '/' then Some(ModelId("", spec[1..]))
    else
      match TryParse(spec[1..])
      case None => None
      case Some(id) => Some(ModelId([spec[0]] + id.provider, id.model))
  }

  /** Parsing splits at the first slash and nothing else. */
  lemma {:induction false} ParseOfJoin(provider: string, model: string)
    requires '/' !in provider
    ensures TryParse(Join(provider, model)) == Some(ModelId(provider, model))
  {
    var spec := Join(provider, model);
    if provider == "" {
      assert spec == "/" + model;
    } else {
      assert spec[1..] == Join(provider[1..], model);
      ParseOfJoin(provider[1..], model);
      assert provider == [provider[0]] + provider[1..];
    }
  }

  lemma {:induction false} JoinOfParse(spec: string)
    ensures TryParse(spec).Some? <==> '/' in spec
    ensures TryParse(spec).Some? ==>
              var id := TryParse(spec).value;
              spec == Join(id.provider, id.model) && '/' !in id.provider
  {
    if spec != "" && spec[0] != '/' {
      JoinOfParse(spec[1..]);
      assert spec == [spec[0]] + spec[1..];
    }
  }

  function ModelOf(spec: string): string {
    match TryParse(spec)
    case Some(id) => id.model
    case None => spec
  }

  // --------------------------------------------------------------- the graph

  function Lookup(m: map<string, seq<string>>, key: string): seq<string> {
    if key in m then m[key] else []
  }

  /** Failovers by full spec first, then by model, then by provider. */
  function FailoversOf(t: Tables, spec: string): seq<string> {
    if spec in t.failovers then t.failovers[spec]
    else if ModelOf(spec) in t.failovers then t.failovers[ModelOf(spec)]
    else
      match TryParse(spec)
      case Some(id) => if id.provider != "" then Lookup(t.failovers, id.provider) else []
      case None => []
  }

  /** A provider-only entry is passed over when equivalents already cover the spec. */
  predicate Skips(t: Tables, spec: string, fallback: string) {
    TryParse(spec).Some? && '/' !in fallback && spec in t.equivalents
  }

  function NextSpec(t: Tables, spec: string, fallback: string): string {
    if TryParse(spec).Some? && t.isProvider(fallback) then Join(fallback, ModelOf(spec)) else fallback
  }

  function Nexts(t: Tables, spec: string, fallbacks: seq<string>): seq<string> {
    if fallbacks == [] then []
    else
      var last := fallbacks[|fallbacks| - 1];
      Nexts(t, spec, fallbacks[..|fallbacks| - 1]) + if Skips(t, spec, last) then [] else [NextSpec(t, spec, last)]
  }

  function Successors(t: Tables, spec: string): seq<string> {
    Lookup(t.equivalents, spec) + Nexts(t, spec, FailoversOf(t, spec))
  }

  // ---- what the tables say, read off by hand

  /** A spec is a provider, a slash and a model; the first slash is the one that counts. */
  ghost predicate Names(spec: string, provider: string, model: string) {
    spec == provider + "/" + model && '/' !in provider
  }

  lemma {:induction false} NamesIsParse(spec: string)
    ensures '/' !in spec ==> TryParse(spec) == None && ModelOf(spec) == spec
    ensures forall p, m :: Names(spec, p, m) <==> TryParse(spec) == Some(ModelId(p, m))
    ensures '/' in spec ==> exists p, m :: Names(spec, p, m) && ModelOf(spec) == m
  {
    JoinOfParse(spec);
    forall p, m
      ensures Names(spec, p, m) <==> TryParse(spec) == Some(ModelId(p, m))
    {
      if Names(spec, p, m) {
        ParseOfJoin(p, m);
      }
    }
    if '/' in spec {
      var id := TryParse(spec).value;
      assert Names(spec, id.provider, id.model);
    }
  }

  /**
    The failovers that apply: those listed for the full spec, or else for the model after its
    first slash, or else for the provider before it, if it has one.
   */
  ghost predicate Applies(t: Tables, spec: string, fallbacks: seq<string>) {
    if spec in t.failovers then fallbacks == t.failovers[spec]
    else if '/' !in spec then fallbacks == []
    else forall p, m :: Names(spec, p, m) ==>
           (m in t.failovers ==> fallbacks == t.failovers[m]) &&
           (m !in t.failovers && p != "" && p in t.failovers ==> fallbacks == t.failovers[p]) &&
           (m !in t.failovers && (p == "" || p !in t.failovers) ==> fallbacks == [])
  }

  lemma {:induction false} FailoversApply(t: Tables, spec: string)
    ensures Applies(t, spec, FailoversOf(t, spec))
  {
    NamesIsParse(spec);
  }

  lemma {:induction false} AppliesIsUnique(t: Tables, spec: string, fallbacks: seq<string>)
    requires Applies(t, spec, fallbacks)
    ensures fallbacks == FailoversOf(t, spec)
  {
    NamesIsParse(spec);
    FailoversApply(t, spec);
    if '/' in spec {
      var p, m :| Names(spec, p, m) && ModelOf(spec) == m;
    }
  }

  /**
    What a listed failover stands for: itself, but a provider name is completed by the model of
    a spec that has one. A name without a slash is passed over if equivalents cover such a spec.
   */
  ghost predicate StandsFor(t: Tables, spec: string, fallback: string, next: string) {
    if '/' !in spec then next == fallback
    else
      && !('/' !in fallback && spec in t.equivalents)
      && exists p, m :: Names(spec, p, m) && next == if t.isProvider(fallback) then fallback + "/" + m else fallback
  }

  lemma {:induction false} StandsForMeans(t: Tables, spec: string, fallback: string, next: string)
    ensures StandsFor(t, spec, fallback, next) <==> !Skips(t, spec, fallback) && next == NextSpec(t, spec, fallback)
  {
    NamesIsParse(spec);
    if '/' in spec {
      var p, m :| Names(spec, p, m) && ModelOf(spec) == m;
      if !Skips(t, spec, fallback) && next == NextSpec(t, spec, fallback) {
        assert Names(spec, p, m) && next == if t.isProvider(fallback) then fallback + "/" + m else fallback;
      }
    }
  }

  /** One spec leads to another: as its equivalent, or as what a failover that applies stands for. */
  ghost predicate Leads(t: Tables, spec: string, next: string) {
    || (spec in t.equivalents && next in t.equivalents[spec])
    || exists fallbacks, f ::
         Applies(t, spec, fallbacks) && f in fallbacks && StandsFor(t, spec, f, next)
  }

  lemma {:induction false} NextsMeans(t: Tables, spec: string, fallbacks: seq<string>, next: string)
    ensures next in Nexts(t, spec, fallbacks) <==> exists f :: f in fallbacks && StandsFor(t, spec, f, next)
  {
    if fallbacks != [] {
      var init, last := fallbacks[..|fallbacks| - 1], fallbacks[|fallbacks| - 1];
      NextsMeans(t, spec, init, next);
      StandsForMeans(t, spec, last, next);
      assert fallbacks == init + [last];
    }
  }

  /** The work list holds exactly what a spec leads to. */
  lemma {:induction false} SuccessorsMean(t: Tables, spec: string, next: string)
    ensures next in Successors(t, spec) <==> Leads(t, spec, next)
  {
    FailoversApply(t, spec);
    NextsMeans(t, spec, FailoversOf(t, spec), next);
    if next in Successors(t, spec) && !(spec in t.equivalents && next in t.equivalents[spec]) {
      var f :| f in FailoversOf(t, spec) && StandsFor(t, spec, f, next);
      assert Leads(t, spec, next);
    }
    if Leads(t, spec, next) && !(spec in t.equivalents && next in t.equivalents[spec]) {
      var fallbacks, f :|
        Applies(t, spec, fallbacks) && f in fallbacks && StandsFor(t, spec, f, next);
      AppliesIsUnique(t, spec, fallbacks);
    }
  }

  /** In order: the equivalents, then what each failover stands for, one by one. */
  lemma {:induction false} SuccessorsInOrder(t: Tables, spec: string, a: seq<string>, b: seq<string>, f: string)
    ensures Successors(t, spec) ==
              (if spec in t.equivalents then t.equivalents[spec] else []) + Nexts(t, spec, FailoversOf(t, spec))
    ensures Nexts(t, spec, a + b) == Nexts(t, spec, a) + Nexts(t, spec, b)
    ensures |Nexts(t, spec, [f])| <= 1
    ensures forall next :: Nexts(t, spec, [f]) == [next] <==> StandsFor(t, spec, f, next)
  {
    NextsAppend(t, spec, a, b);
    assert [f][..0] == [] && Nexts(t, spec, []) == [];
    assert Nexts(t, spec, [f]) == if Skips(t, spec, f) then [] else [NextSpec(t, spec, f)];
    forall next
      ensures Nexts(t, spec, [f]) == [next] <==> StandsFor(t, spec, f, next)
    {
      StandsForMeans(t, spec, f, next);
    }
  }

  lemma {:induction false} NextsAppend(t: Tables, spec: string, a: seq<string>, b: seq<string>)
    ensures Nexts(t, spec, a + b) == Nexts(t, spec, a) + Nexts(t, spec, b)
  {
    if b == [] {
      assert a + b == a;
    } else {
      var init, last := b[..|b| - 1], b[|b| - 1];
      NextsAppend(t, spec, a, init);
      SplitLast(a, b);
      assert (a + b)[..|a + b| - 1] == a + init;
      AppendAssoc(Nexts(t, spec, a), Nexts(t, spec, init),
                  if Skips(t, spec, last) then [] else [NextSpec(t, spec, last)]);
    }
  }

  /** A spec can be got to from another by what the tables say. */
  ghost predicate LeadsTo(t: Tables, from: string, to: string) {
    exists path :: IsRoute(t, path) && path[0] == from && path[|path| - 1] == to
  }

  ghost predicate IsRoute(t: Tables, path: seq<string>) {
    path != [] && forall i, j :: 0 <= i < j < |path| && j == i + 1 ==> Leads(t, path[i], path[j])
  }

  lemma {:induction false} ReachesIsLeadsTo(t: Tables, from: string, to: string)
    ensures Reaches(t, from, to) <==> LeadsTo(t, from, to)
  {
    forall path
      ensures IsPath(t, path) <==> IsRoute(t, path)
    {
      forall i, j | 0 <= i < j < |path| && j == i + 1
        ensures path[j] in Successors(t, path[i]) <==> Leads(t, path[i], path[j])
      {
        SuccessorsMean(t, path[i], path[j]);
      }
    }
  }

  ghost predicate IsPath(t: Tables, path: seq<string>) {
    path != [] && forall i, j :: 0 <= i < j < |path| && j == i + 1 ==> path[j] in Successors(t, path[i])
  }

  ghost predicate Reaches(t: Tables, from: string, to: string) {
    exists path :: IsPath(t, path) && path[0] == from && path[|path| - 1] == to
  }

  lemma {:induction false} ReachesItself(t: Tables, spec: string)
    ensures Reaches(t, spec, spec)
  {
    assert IsPath(t, [spec]) && [spec][0] == spec;
  }

  lemma {:induction false} ReachesThrough(t: Tables, from: string, mid: string, to: string)
    requires mid in Successors(t, from) && Reaches(t, mid, to)
    ensures Reaches(t, from, to)
  {
    var path :| IsPath(t, path) && path[0] == mid && path[|path| - 1] == to;
    var longer := [from] + path;
    forall i, j | 0 <= i < j < |longer| && j == i + 1
      ensures longer[j] in Successors(t, longer[i])
    {
      if i > 0 {
        assert path[j - 1] in Successors(t, path[i - 1]);
      }
    }
    assert IsPath(t, longer);
  }

  // ------------------------------------------------ a finite set of specs

  ghost predicate Closed(t: Tables, universe: set<string>) {
    forall spec, next :: spec in universe && next in Successors(t, spec) ==> next in universe
  }

  ghost function Values(m: map<string, seq<string>>): set<string> {
    set k, i | k in m && 0 <= i < |m[k]| :: m[k][i]
  }

  ghost function BaseSpecs(t: Tables, root: string): set<string> {
    {root} + Values(t.equivalents) + Values(t.failovers)
  }

  /** The tables' specs, and every provider among them combined with every model name. */
  ghost function Universe(t: Tables, root: string): set<string> {
    BaseSpecs(t, root) +
    set p, b | p in BaseSpecs(t, root) && t.isProvider(p) && b in BaseSpecs(t, root) :: Join(p, ModelOf(b))
  }

  /** Provider names contain no slash. */
  ghost predicate PlainProviderNames(t: Tables) {
    forall name :: t.isProvider(name) ==> '/' !in name
  }

  lemma {:induction false} FailoversAreValues(t: Tables, spec: string, f: string)
    requires f in FailoversOf(t, spec)
    ensures f in Values(t.failovers)
  {
    var key := if spec in t.failovers then spec
               else if ModelOf(spec) in t.failovers then ModelOf(spec)
               else TryParse(spec).value.provider;
    var i :| 0 <= i < |t.failovers[key]| && t.failovers[key][i] == f;
  }

  lemma {:induction false} NextsComeFrom(t: Tables, spec: string, fallbacks: seq<string>, next: string)
    requires next in Nexts(t, spec, fallbacks)
    ensures exists f :: f in fallbacks && next == NextSpec(t, spec, f)
  {
    var n := |fallbacks| - 1;
    if next in Nexts(t, spec, fallbacks[..n]) {
      NextsComeFrom(t, spec, fallbacks[..n], next);
    } else {
      assert fallbacks[n] in fallbacks;
    }
  }

  /** However cyclic the tables are, the walk stays inside a finite set. */
  lemma {:induction false} UniverseIsClosed(t: Tables, root: string)
    requires PlainProviderNames(t)
    ensures Closed(t, Universe(t, root)) && root in Universe(t, root)
  {
    forall spec, next | spec in Universe(t, root) && next in Successors(t, spec)
      ensures next in Universe(t, root)
    {
      if next in Lookup(t.equivalents, spec) {
        var i :| 0 <= i < |t.equivalents[spec]| && t.equivalents[spec][i] == next;
        assert next in Values(t.equivalents);
      } else {
        var fs := FailoversOf(t, spec);
        NextsComeFrom(t, spec, fs, next);
        var f :| f in fs && next == NextSpec(t, spec, f);
        FailoversAreValues(t, spec, f);
        ModelStaysKnown(t, root, spec);
      }
    }
  }

  /** Walking never invents a model name, unless a provider name hides a slash. */
  lemma {:induction false} ModelStaysKnown(t: Tables, root: string, spec: string)
    requires PlainProviderNames(t) && spec in Universe(t, root)
    ensures exists b :: b in BaseSpecs(t, root) && ModelOf(b) == ModelOf(spec)
  {
    if spec !in BaseSpecs(t, root) {
      var p, b :| p in BaseSpecs(t, root) && t.isProvider(p) && b in BaseSpecs(t, root) && spec == Join(p, ModelOf(b));
      ParseOfJoin(p, ModelOf(b));
    }
  }

  // ------------------------------------------------------------- the walk

  /** One step of the walk stays in the universe and, on a new spec, leaves fewer unexpanded. */
  lemma {:induction false} StepInside(universe: set<string>, work: seq<string>, seen: seq<string>)
    requires work != [] && ToSet(work) <= universe && ToSet(seen) <= universe
    ensures work[0] in universe && ToSet(work[1..]) <= universe && ToSet(seen + [work[0]]) <= universe
    ensures work[0] !in seen ==> universe - ToSet(seen + [work[0]]) < universe - ToSet(seen)
  {
    assert work[0] in ToSet(work) && ToSet(work[1..]) <= ToSet(work);
    ToSetAppend(seen, [work[0]]);
    assert work[0] in universe - ToSet(seen) || work[0] in seen;
  }

  lemma {:induction false} PrefixMembers(a: seq<string>, b: seq<string>)
    requires a <= b
    ensures ToSet(a) <= ToSet(b) && forall x :: x in a ==> x in b
  {
    assert forall i :: 0 <= i < |a| ==> a[i] == b[i];
  }

  /** The specs expanded by a depth-first walk, in the order of their expansion. */
  ghost function Visit(t: Tables, universe: set<string>, work: seq<string>, seen: seq<string>): (result: seq<string>)
    requires Closed(t, universe) && ToSet(work) <= universe && ToSet(seen) <= universe
    ensures seen <= result && ToSet(result) <= universe
    decreases universe - ToSet(seen), |work|
  {
    if work == [] then seen
    else
      StepInside(universe, work, seen);
      if work[0] in seen then Visit(t, universe, work[1..], seen)
      else
        var inner := Visit(t, universe, Successors(t, work[0]), seen + [work[0]]);
        PrefixMembers(seen + [work[0]], inner);
        Visit(t, universe, work[1..], inner)
  }

  lemma {:induction false} VisitAppend(t: Tables, universe: set<string>, a: seq<string>, b: seq<string>,
                                       seen: seq<string>)
    requires Closed(t, universe) && ToSet(a) <= universe && ToSet(b) <= universe && ToSet(seen) <= universe
    ensures ToSet(a + b) <= universe
    ensures Visit(t, universe, a + b, seen) == Visit(t, universe, b, Visit(t, universe, a, seen))
    decreases universe - ToSet(seen), |a|
  {
    ToSetAppend(a, b);
    if a == [] {
      assert a + b == b;
    } else {
      StepInside(universe, a, seen);
      assert (a + b)[1..] == a[1..] + b;
      if a[0] in seen {
        VisitAppend(t, universe, a[1..], b, seen);
      } else {
        var inner := Visit(t, universe, Successors(t, a[0]), seen + [a[0]]);
        PrefixMembers(seen + [a[0]], inner);
        VisitAppend(t, universe, a[1..], b, inner);
      }
    }
  }

  /** No spec is expanded twice. */
  lemma {:induction false} VisitIsDistinct(t: Tables, universe: set<string>, work: seq<string>, seen: seq<string>)
    requires Closed(t, universe) && ToSet(work) <= universe && ToSet(seen) <= universe
    requires Distinct(seen)
    ensures Distinct(Visit(t, universe, work, seen))
    decreases universe - ToSet(seen), |work|
  {
    if work != [] {
      StepInside(universe, work, seen);
      if work[0] in seen {
        VisitIsDistinct(t, universe, work[1..], seen);
      } else {
        VisitIsDistinct(t, universe, Successors(t, work[0]), seen + [work[0]]);
        var inner := Visit(t, universe, Successors(t, work[0]), seen + [work[0]]);
        PrefixMembers(seen + [work[0]], inner);
        VisitIsDistinct(t, universe, work[1..], inner);
      }
    }
  }

  /** All successors of a spec are in the list. */
  ghost predicate Saturated(t: Tables, spec: string, specs: seq<string>) {
    forall next :: next in Successors(t, spec) ==> next in specs
  }

  /** Everything asked for is expanded, and with every newly expanded spec all its successors. */
  lemma {:induction false} VisitCovers(t: Tables, universe: set<string>, work: seq<string>, seen: seq<string>)
    requires Closed(t, universe) && ToSet(work) <= universe && ToSet(seen) <= universe
    ensures var result := Visit(t, universe, work, seen);
            && (forall w :: w in work ==> w in result)
            && (forall x :: x in result && x !in seen ==> Saturated(t, x, result))
    decreases universe - ToSet(seen), |work|
  {
    if work != [] {
      StepInside(universe, work, seen);
      var w, result := work[0], Visit(t, universe, work, seen);
      assert work == [w] + work[1..];
      PrefixMembers(seen, result);
      if w in seen {
        VisitCovers(t, universe, work[1..], seen);
        assert result == Visit(t, universe, work[1..], seen);
      } else {
        VisitCovers(t, universe, Successors(t, w), seen + [w]);
        var inner := Visit(t, universe, Successors(t, w), seen + [w]);
        PrefixMembers(seen + [w], inner);
        PrefixMembers(inner, result);
        VisitCovers(t, universe, work[1..], inner);
        assert w in seen + [w];
        assert Saturated(t, w, inner);
        forall x | x in inner && x !in seen
          ensures Saturated(t, x, result)
        {
          assert x == w || x !in seen + [w];
          assert Saturated(t, x, inner);
        }
      }
    }
  }

  // ---- the order of the walk

  /** The first entry of a list that is not seen yet. */
  ghost predicate FirstNew(list: seq<string>, seen: seq<string>, x: string) {
    x !in seen && exists p :: 0 <= p < |list| && list[p] == x && forall q :: 0 <= q < p ==> list[q] in seen
  }

  /** From some point on, all that the specs so far lead to is among them. */
  ghost predicate DoneFrom(t: Tables, sofar: seq<string>, from: nat) {
    forall k :: from <= k < |sofar| ==> Saturated(t, sofar[k], sofar)
  }

  /** The next spec after these is the first new one that the latest with a new one leads to. */
  ghost predicate Follows(t: Tables, sofar: seq<string>, from: nat, x: string) {
    exists j, k :: from <= j < |sofar| && k == j + 1 &&
      FirstNew(Successors(t, sofar[j]), sofar, x) && DoneFrom(t, sofar, k)
  }

  /** The specs that the root leads to, depth first, in the order of the tables. */
  ghost predicate DepthFirst(t: Tables, root: string, specs: seq<string>) {
    specs != [] && specs[0] == root && EachFollows(t, specs) && DoneFrom(t, specs, 0)
  }

  ghost predicate EachFollows(t: Tables, specs: seq<string>) {
    forall i :: 0 < i < |specs| ==> FollowsAt(t, specs, i)
  }

  ghost predicate FollowsAt(t: Tables, specs: seq<string>, i: nat)
    requires i < |specs|
  {
    Follows(t, specs[..i], 0, specs[i])
  }

  /** Of a list walked from some point on, each spec follows the deepest, or else is the list's next. */
  ghost predicate InOrder(t: Tables, work: seq<string>, sofar: seq<string>, from: nat, x: string) {
    Follows(t, sofar, from, x) || (DoneFrom(t, sofar, from) && FirstNew(work, sofar, x))
  }

  lemma {:induction false} VisitInOrder(t: Tables, universe: set<string>, work: seq<string>, seen: seq<string>, i: nat)
    requires Closed(t, universe) && ToSet(work) <= universe && ToSet(seen) <= universe && Distinct(seen)
    requires |seen| <= i < |Visit(t, universe, work, seen)|
    ensures var specs := Visit(t, universe, work, seen); InOrder(t, work, specs[..i], |seen|, specs[i])
    decreases universe - ToSet(seen), |work|
  {
    if work != [] {
      StepInside(universe, work, seen);
      if work[0] in seen {
        VisitInOrder(t, universe, work[1..], seen, i);
        var specs := Visit(t, universe, work[1..], seen);
        SkipSeen(t, work, seen, specs[..i], |seen|, specs[i]);
      } else {
        var w := work[0];
        var inner := Visit(t, universe, Successors(t, w), seen + [w]);
        PrefixMembers(seen + [w], inner);
        var specs := Visit(t, universe, work[1..], inner);
        assert specs == Visit(t, universe, work, seen);
        if |seen| < i < |inner| {
          VisitInOrder(t, universe, Successors(t, w), seen + [w], i);
        }
        WalkedBelow(t, universe, w, seen);
        if |inner| <= i {
          VisitInOrder(t, universe, work[1..], inner, i);
        }
        NewInOrder(t, work, seen, inner, specs, i);
      }
    }
  }

  /** After the walk below a new spec, everything it expanded is saturated. */
  lemma {:induction false} WalkedBelow(t: Tables, universe: set<string>, w: string, seen: seq<string>)
    requires Closed(t, universe) && w in universe && ToSet(seen) <= universe && w !in seen && Distinct(seen)
    ensures ToSet(Successors(t, w)) <= universe && ToSet(seen + [w]) <= universe
    ensures DoneFrom(t, Visit(t, universe, Successors(t, w), seen + [w]), |seen|)
    ensures Distinct(Visit(t, universe, Successors(t, w), seen + [w]))
  {
    ToSetAppend(seen, [w]);
    assert Distinct(seen + [w]);
    VisitIsDistinct(t, universe, Successors(t, w), seen + [w]);
    VisitCovers(t, universe, Successors(t, w), seen + [w]);
    InnerDone(t, w, seen, Visit(t, universe, Successors(t, w), seen + [w]));
  }

  lemma {:induction false} NewInOrder(t: Tables, work: seq<string>, seen: seq<string>, inner: seq<string>,
                                      specs: seq<string>, i: nat)
    requires work != [] && work[0] !in seen && seen + [work[0]] <= inner <= specs && |seen| <= i < |specs|
    requires |seen| < i < |inner| ==> InOrder(t, Successors(t, work[0]), inner[..i], |seen| + 1, inner[i])
    requires |inner| <= i ==> InOrder(t, work[1..], specs[..i], |inner|, specs[i])
    requires DoneFrom(t, inner, |seen|)
    ensures InOrder(t, work, specs[..i], |seen|, specs[i])
  {
    var w, from := work[0], |seen|;
    assert specs[..|inner|] == inner && inner[from] == w && inner[..from] == seen;
    if i == from {
      assert specs[..i] == seen && specs[i] == w;
      HeadIsNew(work, seen);
    } else if i < |inner| {
      assert specs[..i] == inner[..i] && specs[i] == inner[i] && inner[..i][from] == w;
      InnerOrder(t, w, inner[..i], from, specs[i]);
    } else {
      assert inner <= specs[..i] && w in inner;
      OuterOrder(t, work, inner, specs[..i], from, specs[i]);
    }
  }

  lemma {:induction false} HeadIsNew(work: seq<string>, seen: seq<string>)
    requires work != [] && work[0] !in seen
    ensures FirstNew(work, seen, work[0])
  {
  }

  lemma {:induction false} SkipSeen(t: Tables, work: seq<string>, seen: seq<string>, sofar: seq<string>, from: nat,
                                    x: string)
    requires work != [] && work[0] in seen && seen <= sofar && InOrder(t, work[1..], sofar, from, x)
    ensures InOrder(t, work, sofar, from, x)
  {
    if FirstNew(work[1..], sofar, x) {
      NewInTail(work, seen, sofar, x);
    }
  }

  lemma {:induction false} NewInTail(work: seq<string>, some: seq<string>, seen: seq<string>, x: string)
    requires work != [] && work[0] in some && some <= seen && FirstNew(work[1..], seen, x)
    ensures FirstNew(work, seen, x)
  {
    PrefixMembers(some, seen);
    var p :| 0 <= p < |work| - 1 && work[1..][p] == x && forall q :: 0 <= q < p ==> work[1..][q] in seen;
    var m := p + 1;
    forall q | 0 <= q < m
      ensures work[q] in seen
    {
      if q > 0 {
        var r := q - 1;
        assert work[q] == work[1..][r];
      }
    }
    assert work[m] == x;
  }

  /** Within the walk below a spec, that spec stands in for the list. */
  lemma {:induction false} InnerOrder(t: Tables, w: string, sofar: seq<string>, from: nat, x: string)
    requires from < |sofar| && sofar[from] == w && InOrder(t, Successors(t, w), sofar, from + 1, x)
    ensures Follows(t, sofar, from, x)
  {
    if Follows(t, sofar, from + 1, x) {
      var j, k :| from + 1 <= j < |sofar| && k == j + 1 && FirstNew(Successors(t, sofar[j]), sofar, x)
                  && DoneFrom(t, sofar, k);
      assert from <= j && k == j + 1 && DoneFrom(t, sofar, k);
    } else {
      var k := from + 1;
      assert k == from + 1 && FirstNew(Successors(t, sofar[from]), sofar, x) && DoneFrom(t, sofar, k);
    }
  }

  /** After the walk below a spec, everything it expanded is saturated. */
  lemma {:induction false} InnerDone(t: Tables, w: string, seen: seq<string>, inner: seq<string>)
    requires seen + [w] <= inner && Distinct(inner)
    requires forall s :: s in Successors(t, w) ==> s in inner
    requires forall x :: x in inner && x !in seen + [w] ==> Saturated(t, x, inner)
    ensures DoneFrom(t, inner, |seen|)
  {
    forall k | |seen| <= k < |inner|
      ensures Saturated(t, inner[k], inner)
    {
      assert inner[|seen|] == w;
      if k > |seen| {
        assert inner[..|seen| + 1] == seen + [w];
        assert inner[k] !in seen + [w];
      }
    }
  }

  lemma {:induction false} OuterOrder(t: Tables, work: seq<string>, inner: seq<string>, sofar: seq<string>, from: nat,
                                      x: string)
    requires work != [] && work[0] in inner && inner <= sofar && from < |inner|
    requires DoneFrom(t, inner, from) && InOrder(t, work[1..], sofar, |inner|, x)
    ensures InOrder(t, work, sofar, from, x)
  {
    if Follows(t, sofar, |inner|, x) {
      var j, k :| |inner| <= j < |sofar| && k == j + 1 && FirstNew(Successors(t, sofar[j]), sofar, x)
                  && DoneFrom(t, sofar, k);
      assert from <= j && k == j + 1 && DoneFrom(t, sofar, k);
    } else {
      PrefixMembers(inner, sofar);
      forall k | from <= k < |sofar|
        ensures Saturated(t, sofar[k], sofar)
      {
        if k < |inner| {
          assert inner[k] == sofar[k] && Saturated(t, inner[k], inner);
        }
      }
      NewInTail(work, inner, sofar, x);
    }
  }

  /** The walk from one spec is depth first. */
  lemma {:induction false} VisitIsDepthFirst(t: Tables, universe: set<string>, root: string)
    requires Closed(t, universe) && root in universe
    ensures ToSet([root]) <= universe
    ensures DepthFirst(t, root, Visit(t, universe, [root], []))
  {
    assert ToSet([root]) <= universe && ToSet<string>([]) == {};
    var specs := Visit(t, universe, [root], []);
    VisitCovers(t, universe, [root], []);
    assert root in [root];
    VisitInOrder(t, universe, [root], [], 0);
    assert specs[..0] == [] && specs[0] == root;
    forall i | 0 < i < |specs|
      ensures FollowsAt(t, specs, i)
    {
      VisitInOrder(t, universe, [root], [], i);
      assert specs[..i][0] == root;
      RootIsNotNew(root, specs[..i], specs[i]);
    }
    forall k | 0 <= k < |specs|
      ensures Saturated(t, specs[k], specs)
    {
      assert specs[k] in specs && specs[k] !in [];
    }
  }

  lemma {:induction false} RootIsNotNew(root: string, sofar: seq<string>, x: string)
    requires root in sofar
    ensures !FirstNew([root], sofar, x)
  {
  }

  lemma {:induction false} SaturatedHasNoNew(t: Tables, spec: string, seen: seq<string>, x: string)
    ensures Saturated(t, spec, seen) ==> !FirstNew(Successors(t, spec), seen, x)
  {
  }

  lemma {:induction false} DoneHasNoNew(t: Tables, sofar: seq<string>, from: nat, j: nat, x: string)
    requires DoneFrom(t, sofar, from) && j < |sofar| && FirstNew(Successors(t, sofar[j]), sofar, x)
    ensures j < from
  {
    SaturatedHasNoNew(t, sofar[j], sofar, x);
  }

  lemma {:induction false} DoneHasNoNext(t: Tables, sofar: seq<string>, x: string)
    requires DoneFrom(t, sofar, 0)
    ensures !Follows(t, sofar, 0, x)
  {
    forall j | 0 <= j < |sofar|
      ensures !FirstNew(Successors(t, sofar[j]), sofar, x)
    {
      SaturatedHasNoNew(t, sofar[j], sofar, x);
    }
  }

  lemma {:induction false} OneFollows(t: Tables, sofar: seq<string>, x: string, y: string)
    requires Follows(t, sofar, 0, x) && Follows(t, sofar, 0, y)
    ensures x == y
  {
    var i, k :| 0 <= i < |sofar| && k == i + 1 && FirstNew(Successors(t, sofar[i]), sofar, x) && DoneFrom(t, sofar, k);
    var j, m :| 0 <= j < |sofar| && m == j + 1 && FirstNew(Successors(t, sofar[j]), sofar, y) && DoneFrom(t, sofar, m);
    SameDeepest(t, sofar, i, j, x, y);
  }

  lemma {:induction false} SameDeepest(t: Tables, sofar: seq<string>, i: nat, j: nat, x: string, y: string)
    requires i < |sofar| && FirstNew(Successors(t, sofar[i]), sofar, x) && DoneFrom(t, sofar, i + 1)
    requires j < |sofar| && FirstNew(Successors(t, sofar[j]), sofar, y) && DoneFrom(t, sofar, j + 1)
    ensures x == y
  {
    DoneHasNoNew(t, sofar, i + 1, j, y);
    DoneHasNoNew(t, sofar, j + 1, i, x);
    OneFirstNew(Successors(t, sofar[i]), sofar, x, y);
  }

  lemma {:induction false} OneFirstNew(list: seq<string>, seen: seq<string>, x: string, y: string)
    requires FirstNew(list, seen, x) && FirstNew(list, seen, y)
    ensures x == y
  {
    var p :| 0 <= p < |list| && list[p] == x && forall q :: 0 <= q < p ==> list[q] in seen;
    var r :| 0 <= r < |list| && list[r] == y && forall q :: 0 <= q < r ==> list[q] in seen;
    assert p <= r && r <= p;
  }

  lemma {:induction false} NextAgrees(t: Tables, a: seq<string>, b: seq<string>, i: nat)
    requires EachFollows(t, a) && EachFollows(t, b) && 0 < i < |a| && i < |b| && a[..i] == b[..i]
    ensures a[..i + 1] == b[..i + 1]
  {
    assert FollowsAt(t, a, i) && FollowsAt(t, b, i);
    OneFollows(t, a[..i], a[i], b[i]);
    assert a[..i + 1] == a[..i] + [a[i]] && b[..i + 1] == b[..i] + [b[i]];
  }

  lemma {:induction false} SamePrefix(t: Tables, a: seq<string>, b: seq<string>, n: nat)
    requires EachFollows(t, a) && EachFollows(t, b) && 0 < n <= |a| && n <= |b| && a[0] == b[0]
    ensures a[..n] == b[..n]
  {
    if n == 1 {
      assert a[..1] == [a[0]] && b[..1] == [b[0]];
    } else {
      SamePrefix(t, a, b, n - 1);
      NextAgrees(t, a, b, n - 1);
    }
  }

  lemma {:induction false} NoMore(t: Tables, a: seq<string>, b: seq<string>)
    requires DoneFrom(t, a, 0) && EachFollows(t, b) && a != [] && a <= b
    ensures a == b
  {
    if |a| < |b| {
      NothingFollows(t, a, b);
    }
  }

  lemma {:induction false} NothingFollows(t: Tables, a: seq<string>, b: seq<string>)
    requires DoneFrom(t, a, 0) && a <= b && |a| < |b|
    ensures !FollowsAt(t, b, |a|)
  {
    assert b[..|a|] == a;
    DoneHasNoNext(t, a, b[|a|]);
  }

  /** There is only one depth-first order. */
  lemma {:induction false} DepthFirstIsUnique(t: Tables, root: string, a: seq<string>, b: seq<string>)
    requires DepthFirst(t, root, a) && DepthFirst(t, root, b) && |a| <= |b|
    ensures a == b
  {
    SamePrefix(t, a, b, |a|);
    assert a[..|a|] == a;
    NoMore(t, a, b);
  }

  /** Nothing is expanded that the work list does not reach. */
  lemma {:induction false} VisitIsSound(t: Tables, universe: set<string>, work: seq<string>, seen: seq<string>,
                                        x: string)
    requires Closed(t, universe) && ToSet(work) <= universe && ToSet(seen) <= universe
    requires x in Visit(t, universe, work, seen)
    ensures x in seen || exists w :: w in work && Reaches(t, w, x)
    decreases universe - ToSet(seen), |work|
  {
    if work != [] {
      StepInside(universe, work, seen);
      var w := work[0];
      if w in seen {
        VisitIsSound(t, universe, work[1..], seen, x);
      } else {
        var inner := Visit(t, universe, Successors(t, w), seen + [w]);
        PrefixMembers(seen + [w], inner);
        VisitIsSound(t, universe, work[1..], inner, x);
        if x in inner {
          VisitIsSound(t, universe, Successors(t, w), seen + [w], x);
          if x == w {
            ReachesItself(t, w);
          } else if x !in seen {
            var s :| s in Successors(t, w) && Reaches(t, s, x);
            ReachesThrough(t, w, s, x);
          }
        }
      }
    }
  }

  /** Walking one more spec of a list. */
  lemma {:induction false} EachStep(t: Tables, universe: set<string>, specs: seq<string>, i: nat, seen: seq<string>,
                                    now: seq<string>)
    requires Closed(t, universe) && ToSet(specs) <= universe && ToSet(seen) <= universe && i < |specs|
    requires ToSet(specs[..i]) <= universe && now == Visit(t, universe, specs[..i], seen)
    ensures specs[i] in universe && ToSet([specs[i]]) <= universe && ToSet(specs[..i + 1]) <= universe
    ensures universe - ToSet(now) <= universe - ToSet(seen)
    ensures Visit(t, universe, specs[..i + 1], seen) == Visit(t, universe, [specs[i]], now)
  {
    assert specs[..i + 1] == specs[..i] + [specs[i]];
    assert specs[i] in ToSet(specs);
    PrefixMembers(seen, now);
    VisitAppend(t, universe, specs[..i], [specs[i]], seen);
  }

  lemma {:induction false} ClosedUnderPaths(t: Tables, specs: seq<string>, path: seq<string>)
    requires IsPath(t, path) && path[0] in specs
    requires forall x :: x in specs ==> Saturated(t, x, specs)
    ensures path[|path| - 1] in specs
  {
    if |path| > 1 {
      var rest := path[1..];
      forall i, j | 0 <= i < j < |rest| && j == i + 1
        ensures rest[j] in Successors(t, rest[i])
      {
        assert path[j + 1] in Successors(t, path[i + 1]);
      }
      assert path[1] in Successors(t, path[0]) && Saturated(t, path[0], specs);
      ClosedUnderPaths(t, specs, rest);
    }
  }

  /** A walk from one spec expands exactly the specs reachable from it. */
  lemma {:induction false} VisitIsReachability(t: Tables, universe: set<string>, root: string, x: string)
    requires Closed(t, universe) && root in universe
    ensures ToSet([root]) <= universe
    ensures x in Visit(t, universe, [root], []) <==> Reaches(t, root, x)
  {
    assert ToSet([root]) <= universe && ToSet<string>([]) == {};
    var result := Visit(t, universe, [root], []);
    VisitCovers(t, universe, [root], []);
    if x in result {
      VisitIsSound(t, universe, [root], [], x);
    }
    if Reaches(t, root, x) {
      var path :| IsPath(t, path) && path[0] == root && path[|path| - 1] == x;
      assert root in [root];
      ClosedUnderPaths(t, result, path);
    }
  }

  // ------------------------------------------------------------ the candidates

  function FlatExpand(t: Tables, providers: seq<string>, model: string): seq<Candidate> {
    if providers == [] then []
    else FlatExpand(t, providers[..|providers| - 1], model) + t.expand(providers[|providers| - 1], model)
  }

  function CandidatesOf(t: Tables, spec: string): seq<Candidate> {
    match TryParse(spec)
    case Some(id) => t.expand(id.provider, id.model)
    case None => FlatExpand(t, t.providersFor(spec), spec)
  }

  /** A provider's model has that provider's candidates, a bare model those of its providers in order. */
  lemma {:induction false} CandidatesMean(t: Tables, spec: string, a: seq<string>, b: seq<string>, provider: string)
    ensures forall p, m :: Names(spec, p, m) ==> CandidatesOf(t, spec) == t.expand(p, m)
    ensures '/' !in spec ==> CandidatesOf(t, spec) == FlatExpand(t, t.providersFor(spec), spec)
    ensures FlatExpand(t, a + b, spec) == FlatExpand(t, a, spec) + FlatExpand(t, b, spec)
    ensures FlatExpand(t, [provider], spec) == t.expand(provider, spec) && FlatExpand(t, [], spec) == []
  {
    NamesIsParse(spec);
    FlatAppend(t, a, b, spec);
    assert [provider][..0] == [];
  }

  lemma {:induction false} FlatAppend(t: Tables, a: seq<string>, b: seq<string>, model: string)
    ensures FlatExpand(t, a + b, model) == FlatExpand(t, a, model) + FlatExpand(t, b, model)
  {
    if b == [] {
      assert a + b == a;
    } else {
      var init, last := b[..|b| - 1], b[|b| - 1];
      FlatAppend(t, a, init, model);
      assert (a + b)[..|a + b| - 1] == a + init;
      AppendAssoc(FlatExpand(t, a, model), FlatExpand(t, init, model), t.expand(last, model));
    }
  }

  ghost function Keys(cs: seq<Candidate>): set<string> {
    set c | c in cs :: c.healthKey
  }

  ghost predicate DistinctKeys(cs: seq<Candidate>) {
    forall i, j :: 0 <= i < j < |cs| ==> cs[i].healthKey != cs[j].healthKey
  }

  /** Appending candidates whose health key is new, in order. */
  ghost function AppendNew(chain: seq<Candidate>, cs: seq<Candidate>): seq<Candidate> {
    if cs == [] then chain
    else
      var init, last := AppendNew(chain, cs[..|cs| - 1]), cs[|cs| - 1];
      if last.healthKey in Keys(init) then init else init + [last]
  }

  lemma {:induction false} KeysSnoc(cs: seq<Candidate>, c: Candidate)
    ensures Keys(cs + [c]) == Keys(cs) + {c.healthKey}
  {
    assert forall d :: d in cs + [c] <==> d in cs || d == c;
  }

  lemma {:induction false} DistinctSnoc(cs: seq<Candidate>, c: Candidate)
    requires DistinctKeys(cs) && c.healthKey !in Keys(cs)
    ensures DistinctKeys(cs + [c])
  {
    assert forall i :: 0 <= i < |cs| ==> cs[i].healthKey in Keys(cs);
  }

  lemma {:induction false} AppendNewFacts(chain: seq<Candidate>, cs: seq<Candidate>)
    ensures chain <= AppendNew(chain, cs)
    ensures Keys(AppendNew(chain, cs)) == Keys(chain) + Keys(cs)
    ensures DistinctKeys(chain) ==> DistinctKeys(AppendNew(chain, cs))
    ensures Keys(cs) <= Keys(chain) ==> AppendNew(chain, cs) == chain
  {
    if cs != [] {
      var n := |cs| - 1;
      var init := AppendNew(chain, cs[..n]);
      AppendNewFacts(chain, cs[..n]);
      assert cs == cs[..n] + [cs[n]];
      KeysSnoc(cs[..n], cs[n]);
      KeysSnoc(init, cs[n]);
      if DistinctKeys(chain) && cs[n].healthKey !in Keys(init) {
        DistinctSnoc(init, cs[n]);
      }
    }
  }

  /** What is appended is, in order, each candidate whose key neither the chain nor an earlier one has. */
  ghost predicate Picks(chain: seq<Candidate>, cs: seq<Candidate>, picked: seq<nat>, result: seq<Candidate>) {
    && |result| == |chain| + |picked| && chain <= result
    && (forall k :: 0 <= k < |picked| ==> picked[k] < |cs| && result[|chain| + k] == cs[picked[k]])
    && (forall j, k :: 0 <= j < k < |picked| ==> picked[j] < picked[k])
    && (forall i :: 0 <= i < |cs| ==> (i in picked <==> IsNew(chain, cs, i)))
  }

  ghost predicate IsNew(chain: seq<Candidate>, cs: seq<Candidate>, i: nat)
    requires i < |cs|
  {
    && (forall c :: c in chain ==> c.healthKey != cs[i].healthKey)
    && (forall j :: 0 <= j < i ==> cs[j].healthKey != cs[i].healthKey)
  }

  lemma {:induction false} AppendNewPicks(chain: seq<Candidate>, cs: seq<Candidate>) returns (picked: seq<nat>)
    ensures Picks(chain, cs, picked, AppendNew(chain, cs))
  {
    if cs == [] {
      picked := [];
    } else {
      var init, last := cs[..|cs| - 1], cs[|cs| - 1];
      picked := AppendNewPicks(chain, init);
      AppendNewFacts(chain, init);
      assert cs == init + [last];
      assert IsNew(chain, cs, |init|) <==> last.healthKey !in Keys(AppendNew(chain, init));
      PicksSnoc(chain, init, picked, AppendNew(chain, init), last);
      if last.healthKey !in Keys(AppendNew(chain, init)) {
        picked := picked + [|init|];
      }
    }
  }

  lemma {:induction false} PicksSnoc(chain: seq<Candidate>, cs: seq<Candidate>, picked: seq<nat>,
                                     result: seq<Candidate>, last: Candidate)
    requires Picks(chain, cs, picked, result)
    ensures IsNew(chain, cs + [last], |cs|) ==> Picks(chain, cs + [last], picked + [|cs|], result + [last])
    ensures !IsNew(chain, cs + [last], |cs|) ==> Picks(chain, cs + [last], picked, result)
  {
    var longer := cs + [last];
    forall i | 0 <= i < |cs|
      ensures IsNew(chain, longer, i) <==> IsNew(chain, cs, i)
    {
      assert forall j :: 0 <= j <= i ==> longer[j] == cs[j];
    }
    assert |cs| !in picked;
  }

  lemma {:induction false} AppendNewSnoc(chain: seq<Candidate>, cs: seq<Candidate>, c: Candidate)
    ensures var init := AppendNew(chain, cs);
            AppendNew(chain, cs + [c]) == if c.healthKey in Keys(init) then init else init + [c]
  {
    assert (cs + [c])[..|cs|] == cs;
  }

  lemma {:induction false} AppendNewAppend(chain: seq<Candidate>, a: seq<Candidate>, b: seq<Candidate>)
    ensures AppendNew(chain, a + b) == AppendNew(AppendNew(chain, a), b)
  {
    if b == [] {
      assert a + b == a;
    } else {
      var init, last := b[..|b| - 1], b[|b| - 1];
      SplitLast(a, b);
      AppendNewAppend(chain, a, init);
      AppendNewSnoc(chain, a + init, last);
      AppendNewSnoc(AppendNew(chain, a), init, last);
    }
  }

  /** The candidates of one spec after another. */
  ghost function AllCandidates(t: Tables, specs: seq<string>): seq<Candidate> {
    if specs == [] then []
    else AllCandidates(t, specs[..|specs| - 1]) + CandidatesOf(t, specs[|specs| - 1])
  }

  lemma {:induction false} AllCandidatesSnoc(t: Tables, specs: seq<string>, last: string)
    ensures AllCandidates(t, specs + [last]) == AllCandidates(t, specs) + CandidatesOf(t, last)
  {
    assert (specs + [last])[..|specs|] == specs;
  }

  lemma {:induction false} AllCandidatesAppend(t: Tables, a: seq<string>, b: seq<string>)
    ensures AllCandidates(t, a + b) == AllCandidates(t, a) + AllCandidates(t, b)
  {
    if b == [] {
      assert a + b == a;
    } else {
      var init, last := b[..|b| - 1], b[|b| - 1];
      SplitLast(a, b);
      AllCandidatesAppend(t, a, init);
      AllCandidatesSnoc(t, a + init, last);
      AllCandidatesSnoc(t, init, last);
      AppendAssoc(AllCandidates(t, a), AllCandidates(t, init), CandidatesOf(t, last));
    }
  }

  lemma {:induction false} KeysOfAll(t: Tables, specs: seq<string>, k: string)
    ensures k in Keys(AllCandidates(t, specs)) <==> exists s :: s in specs && k in Keys(CandidatesOf(t, s))
  {
    if specs != [] {
      var init, last := specs[..|specs| - 1], specs[|specs| - 1];
      KeysOfAll(t, init, k);
      assert forall s :: s in specs <==> s in init || s == last;
      var all := AllCandidates(t, init) + CandidatesOf(t, last);
      assert forall c :: c in all <==> c in AllCandidates(t, init) || c in CandidatesOf(t, last);
    }
  }

  /** The chain after the candidates of some specs. */
  ghost function Extend(t: Tables, chain: seq<Candidate>, specs: seq<string>): seq<Candidate> {
    AppendNew(chain, AllCandidates(t, specs))
  }

  lemma {:induction false} ExtendAppend(t: Tables, chain: seq<Candidate>, a: seq<string>, b: seq<string>)
    ensures Extend(t, chain, a + b) == Extend(t, Extend(t, chain, a), b)
  {
    AllCandidatesAppend(t, a, b);
    AppendNewAppend(chain, AllCandidates(t, a), AllCandidates(t, b));
  }

  lemma {:induction false} OneSpec(t: Tables, spec: string)
    ensures AllCandidates(t, [spec]) == CandidatesOf(t, spec)
  {
    assert [spec][..0] == [];
  }

  lemma {:induction false} ExtendFacts(t: Tables, chain: seq<Candidate>, specs: seq<string>)
    ensures chain <= Extend(t, chain, specs)
    ensures DistinctKeys(chain) ==> DistinctKeys(Extend(t, chain, specs))
    ensures forall k :: k in Keys(Extend(t, chain, specs)) <==>
              k in Keys(chain) || exists s :: s in specs && k in Keys(CandidatesOf(t, s))
  {
    AppendNewFacts(chain, AllCandidates(t, specs));
    forall k
      ensures k in Keys(AllCandidates(t, specs)) <==> exists s :: s in specs && k in Keys(CandidatesOf(t, s))
    {
      KeysOfAll(t, specs, k);
    }
  }

  /** The chain and the set of expanded specs while they grow. */
  class ChainBuilder {
    var chain: seq<Candidate>
    var expanded: seq<string>

    constructor ()
      ensures chain == [] && expanded == []
    {
      chain, expanded := [], [];
    }

    /** Every expanded spec has its candidates in the chain. */
    ghost predicate Complete(t: Tables)
      reads this
    {
      forall s :: s in expanded ==> Keys(CandidatesOf(t, s)) <= Keys(chain)
    }

    /** From an earlier point on, the chain grew by the candidates of the newly expanded specs. */
    ghost predicate GrownFrom(t: Tables, chain0: seq<Candidate>, expanded0: seq<string>)
      reads this
    {
      && expanded0 <= expanded
      && chain == Extend(t, chain0, expanded[|expanded0|..])
      && Complete(t)
    }

    method AppendCandidates(t: Tables, spec: string)
      modifies this`chain
      ensures chain == AppendNew(old(chain), CandidatesOf(t, spec))
    {
      var cs := CandidatesOf(t, spec);
      for i := 0 to |cs|
        invariant chain == AppendNew(old(chain), cs[..i])
      {
        assert cs[..i + 1][..i] == cs[..i];
        if !(exists j :: 0 <= j < |chain| && chain[j].healthKey == cs[i].healthKey) {
          chain := chain + [cs[i]];
        }
      }
      assert cs[..|cs|] == cs;
    }

    lemma {:induction false} GrowsOn(t: Tables, chain0: seq<Candidate>, expanded0: seq<string>,
                                     chain1: seq<Candidate>, expanded1: seq<string>)
      requires expanded0 <= expanded1 && chain1 == Extend(t, chain0, expanded1[|expanded0|..])
      requires GrownFrom(t, chain1, expanded1)
      ensures GrownFrom(t, chain0, expanded0)
    {
      var a, b := expanded1[|expanded0|..], expanded[|expanded1|..];
      assert expanded == expanded1 + b;
      assert expanded[|expanded0|..] == a + b;
      ExtendAppend(t, chain0, a, b);
    }

    lemma {:induction false} StillComplete(t: Tables, spec: string)
      requires Complete(t)
      ensures AppendNew(chain, CandidatesOf(t, spec)) == chain || spec !in expanded
    {
      if spec in expanded {
        AppendNewFacts(chain, CandidatesOf(t, spec));
      }
    }

    /** Adding the candidates of a spec and expanding it is one step of growth. */
    lemma {:induction false} ExpandedOne(t: Tables, chain0: seq<Candidate>, expanded0: seq<string>, spec: string)
      requires forall s :: s in expanded0 ==> Keys(CandidatesOf(t, s)) <= Keys(chain0)
      requires chain == AppendNew(chain0, CandidatesOf(t, spec)) && expanded == expanded0 + [spec]
      ensures GrownFrom(t, chain0, expanded0)
    {
      AppendNewFacts(chain0, CandidatesOf(t, spec));
      assert expanded[|expanded0|..] == [spec];
      OneSpec(t, spec);
      forall s | s in expanded
        ensures Keys(CandidatesOf(t, s)) <= Keys(chain)
      {
        assert s in expanded0 || s == spec;
      }
    }

    /** Walks a list of specs, one recursive expansion each. */
    method AppendEach(t: Tables, ghost universe: set<string>, specs: seq<string>)
      requires Closed(t, universe) && ToSet(specs) <= universe && ToSet(expanded) <= universe
      requires Complete(t)
      modifies this
      ensures expanded == Visit(t, universe, specs, old(expanded))
      ensures GrownFrom(t, old(chain), old(expanded))
      decreases universe - ToSet(expanded), 1
    {
      assert old(expanded)[|old(expanded)|..] == [];
      for i := 0 to |specs|
        invariant ToSet(specs[..i]) <= universe && ToSet(expanded) <= universe
        invariant expanded == Visit(t, universe, specs[..i], old(expanded))
        invariant GrownFrom(t, old(chain), old(expanded))
      {
        ghost var chain1, expanded1 := chain, expanded;
        EachStep(t, universe, specs, i, old(expanded), expanded);
        AppendFailoverChain(t, universe, specs[i]);
        GrowsOn(t, old(chain), old(expanded), chain1, expanded1);
      }
      assert specs[..|specs|] == specs;
    }

    /** What a spec leads to: its equivalents, then its failovers in full form. */
    method WorkList(t: Tables, spec: string) returns (work: seq<string>)
      ensures work == Successors(t, spec)
    {
      var fallbacks := FailoversOf(t, spec);
      work := Lookup(t.equivalents, spec);
      for i := 0 to |fallbacks|
        invariant work == Lookup(t.equivalents, spec) + Nexts(t, spec, fallbacks[..i])
      {
        assert fallbacks[..i + 1][..i] == fallbacks[..i];
        if !Skips(t, spec, fallbacks[i]) {
          work := work + [NextSpec(t, spec, fallbacks[i])];
        }
      }
      assert fallbacks[..|fallbacks|] == fallbacks;
    }

    /**
      Append a spec's candidates, then those of everything newly reachable from it: equivalents
      first, then failovers. Ends on every cyclic table, because a spec is expanded once.
     */
    method AppendFailoverChain(t: Tables, ghost universe: set<string>, spec: string)
      requires Closed(t, universe) && spec in universe && ToSet(expanded) <= universe
      requires Complete(t)
      modifies this
      ensures ToSet([spec]) <= universe
      ensures expanded == Visit(t, universe, [spec], old(expanded))
      ensures GrownFrom(t, old(chain), old(expanded))
      decreases universe - ToSet(expanded), 0
    {
      StepInside(universe, [spec], expanded);
      StillComplete(t, spec);
      assert [spec][1..] == [];
      assert expanded[|expanded|..] == [];
      AppendCandidates(t, spec);
      if spec in expanded {
        return;
      }
      expanded := expanded + [spec];
      ghost var chain1, expanded1 := chain, expanded;
      ExpandedOne(t, old(chain), old(expanded), spec);
      var work := WorkList(t, spec);
      AppendEach(t, universe, work);
      GrowsOn(t, old(chain), old(expanded), chain1, expanded1);
    }
  }

  /** What an active sticky failover puts in front: its own candidates, without expansion. */
  ghost function StickyFirst(t: Tables, root: string, sticky: Option<Sticky>, now: real): (first: seq<Candidate>)
    ensures DistinctKeys(first)
    ensures sticky.Some? && sticky.value.spec != root && now < sticky.value.nextPrimaryRetryAt ==>
              Keys(first) == Keys(CandidatesOf(t, sticky.value.spec))
    ensures sticky.None? || sticky.value.spec == root || now >= sticky.value.nextPrimaryRetryAt ==> first == []
  {
    if sticky.Some? && sticky.value.spec != root && now < sticky.value.nextPrimaryRetryAt then
      AppendNewFacts([], CandidatesOf(t, sticky.value.spec));
      AppendNew([], CandidatesOf(t, sticky.value.spec))
    else []
  }

  /**
    A chain for a requested spec: no health key twice, the keys of exactly the specs it leads to
    and of the candidates put first, these in front, then those of the specs in depth-first order.
   */
  ghost predicate ChainFor(t: Tables, root: string, first: seq<Candidate>, chain: seq<Candidate>) {
    && DistinctKeys(chain)
    && first <= AppendNew(first, CandidatesOf(t, root)) <= chain
    && (forall k :: k in Keys(chain) <==>
          k in Keys(first) || exists s :: LeadsTo(t, root, s) && k in Keys(CandidatesOf(t, s)))
    && exists specs :: DepthFirst(t, root, specs) && chain == AppendNew(first, AllCandidates(t, specs))
  }

  method BuildCandidateChain(t: Tables, root: string, sticky: Option<Sticky>, now: real) returns (chain: seq<Candidate>)
    requires PlainProviderNames(t)
    ensures ChainFor(t, root, StickyFirst(t, root, sticky, now), chain)
    ensures if sticky.Some? && sticky.value.spec != root && now < sticky.value.nextPrimaryRetryAt
            then AppendNew(AppendNew([], CandidatesOf(t, sticky.value.spec)), CandidatesOf(t, root)) <= chain
            else AppendNew([], CandidatesOf(t, root)) <= chain
  {
    ghost var universe := Universe(t, root);
    UniverseIsClosed(t, root);
    assert ToSet<string>([]) == {};
    var builder := new ChainBuilder();
    if sticky.Some? && sticky.value.spec != root && now < sticky.value.nextPrimaryRetryAt {
      builder.AppendCandidates(t, sticky.value.spec);
    }
    ghost var first := builder.chain;
    assert first == StickyFirst(t, root, sticky, now);
    builder.AppendFailoverChain(t, universe, root);
    chain := builder.chain;
    assert builder.expanded[0..] == builder.expanded;
    ChainFacts(t, universe, root, first);
  }

  /** What the walk adds to the candidates put first. */
  lemma {:induction false} ChainFacts(t: Tables, universe: set<string>, root: string, first: seq<Candidate>)
    requires Closed(t, universe) && root in universe && DistinctKeys(first)
    ensures ToSet([root]) <= universe
    ensures ChainFor(t, root, first, Extend(t, first, Visit(t, universe, [root], [])))
  {
    RootComesFirst(t, universe, root);
    var specs := Visit(t, universe, [root], []);
    ExtendFacts(t, first, specs);
    forall s
      ensures s in specs <==> Reaches(t, root, s)
    {
      VisitIsReachability(t, universe, root, s);
    }
    forall s
      ensures Reaches(t, root, s) <==> LeadsTo(t, root, s)
    {
      ReachesIsLeadsTo(t, root, s);
    }
    VisitIsDepthFirst(t, universe, root);
    HeadOfExtend(t, first, root, specs);
  }

  lemma {:induction false} HeadOfExtend(t: Tables, first: seq<Candidate>, root: string, specs: seq<string>)
    requires [root] <= specs
    ensures first <= AppendNew(first, CandidatesOf(t, root)) <= Extend(t, first, specs)
  {
    assert specs == [root] + specs[1..];
    OneSpec(t, root);
    ExtendAppend(t, first, [root], specs[1..]);
    ExtendFacts(t, Extend(t, first, [root]), specs[1..]);
    AppendNewFacts(first, CandidatesOf(t, root));
  }

  lemma {:induction false} RootComesFirst(t: Tables, universe: set<string>, root: string)
    requires Closed(t, universe) && root in universe
    ensures ToSet([root]) <= universe
    ensures [root] <= Visit(t, universe, [root], [])
  {
    assert ToSet([root]) <= universe && ToSet<string>([]) == {};
    StepInside(universe, [root], []);
    assert [root][1..] == [] && [] + [root] == [root];
  }

  // ------------------------------------------ why provider names matter

  /** One table entry sends provider "x" to "x/y", and "x/y" passes for a provider name. */
  ghost predicate Looping(t: Tables) {
    t.failovers == map["x" := ["x/y"]] && t.equivalents == map[] && t.isProvider("x/y")
  }

  lemma {:induction false} LoopingStep(t: Tables, model: string)
    requires Looping(t) && model != "x"
    ensures Join("x/y", model) in Successors(t, Join("x", model))
  {
    var spec := Join("x", model);
    ParseOfJoin("x", model);
    assert |spec| > 1;
    assert FailoversOf(t, spec) == ["x/y"];
    var f := "x/y";
    assert [f][..0] == [];
    assert Nexts(t, spec, [f]) == Nexts(t, spec, []) + [NextSpec(t, spec, f)];
  }

  /** Then a walk from "x/m" would meet ever longer specs and never end. */
  lemma {:induction false} SlashInProviderNameNeverEnds(t: Tables, n: nat) returns (model: string)
    requires Looping(t)
    ensures |model| > n && model != "x"
    ensures Reaches(t, Join("x", "m"), Join("x", model))
  {
    if n == 0 {
      model := "m";
      ReachesItself(t, Join("x", "m"));
    } else {
      var shorter := SlashInProviderNameNeverEnds(t, n - 1);
      model := "y/" + shorter;
      assert Join("x/y", shorter) == Join("x", model);
      LoopingStep(t, shorter);
      ReachesOneMore(t, Join("x", "m"), Join("x", shorter), Join("x", model));
    }
  }

  lemma {:induction false} ReachesOneMore(t: Tables, from: string, mid: string, to: string)
    requires Reaches(t, from, mid) && to in Successors(t, mid)
    ensures Reaches(t, from, to)
  {
    var path :| IsPath(t, path) && path[0] == from && path[|path| - 1] == mid;
    var longer := path + [to];
    forall i, j | 0 <= i < j < |longer| && j == i + 1
      ensures longer[j] in Successors(t, longer[i])
    {
      if j < |path| {
        assert path[j] in Successors(t, path[i]);
      }
    }
    assert IsPath(t, longer) && longer[0] == from && longer[|longer| - 1] == to;
  }
}
