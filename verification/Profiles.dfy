/**
  Routing profiles: cycle detection over the profile graph and the nearest-wins merge that
  ends only because there is no cycle (src/routing/resolver.ts).
 */
module Profiles {
  import opened Common

  /** A routing rule after normalization. */
  datatype Rule = Rule(
    profile: Option<string>,
    model: Option<string>,
    authProfile: Option<string>,
    account: Option<string>,
    preferredModels: seq<string>,
    allowedModels: Option<seq<string>>,
    preferredAccounts: seq<string>,
    allowedAccounts: Option<seq<string>>)

  const EmptyRule := Rule(None, None, None, None, [], None, [], None)

  type Table = map<string, Rule>

  /** The profile a rule defers to, when it names an existing one. */
  function NextOf(profiles: Table, rule: Rule): Option<string> {
    match rule.profile
    case Some(name) => if name != "" && name in profiles then Some(name) else None
    case None => None
  }

  function Next(profiles: Table, name: string): Option<string> {
    if name in profiles then NextOf(profiles, profiles[name]) else None
  }

  /** The rule names a profile, and there is one of that name. */
  ghost predicate NamesProfile(profiles: Table, rule: Rule, name: string) {
    rule.profile == Some(name) && name != "" && name in profiles
  }

  // -------------------------------------------------------------- cycles

  ghost predicate IsWalk(profiles: Table, walk: seq<string>) {
    forall i, j :: 0 <= i < j < |walk| && j == i + 1 ==> Next(profiles, walk[i]) == Some(walk[j])
  }

  /** A walk along profile references that ends where it began. */
  ghost predicate IsCycle(profiles: Table, cycle: seq<string>) {
    |cycle| >= 2 && IsWalk(profiles, cycle) && cycle[0] == cycle[|cycle| - 1]
  }

  /** Each profile of a cycle names the next, and the last is the first. */
  lemma {:induction false} CycleMeans(profiles: Table, cycle: seq<string>)
    ensures IsCycle(profiles, cycle) <==>
              && |cycle| >= 2 && cycle[0] == cycle[|cycle| - 1]
              && forall i, j :: 0 <= i < j < |cycle| && j == i + 1 ==>
                   Refers(profiles, cycle[i], cycle[j])
  {
    forall i, j | 0 <= i < j < |cycle| && j == i + 1
      ensures Next(profiles, cycle[i]) == Some(cycle[j]) <==> Refers(profiles, cycle[i], cycle[j])
    {
    }
    if forall i, j :: 0 <= i < j < |cycle| && j == i + 1 ==> Refers(profiles, cycle[i], cycle[j]) {
      assert IsWalk(profiles, cycle);
    }
  }

  ghost predicate Refers(profiles: Table, name: string, next: string) {
    name in profiles && NamesProfile(profiles, profiles[name], next)
  }

  /** A profile refers to none, or to one ranked below a limit. */
  ghost predicate LeadsInto(profiles: Table, done: set<string>, rank: map<string, nat>, name: string, limit: nat) {
    match Next(profiles, name)
    case None => true
    case Some(q) => q in done && q in rank && rank[q] < limit
  }

  /** A ranking that drops along every reference. */
  ghost predicate Ranked(profiles: Table, done: set<string>, rank: map<string, nat>) {
    && rank.Keys == done
    && forall p :: p in done ==> LeadsInto(profiles, done, rank, p, rank[p])
  }

  lemma {:induction false} RankFallsAlongWalk(profiles: Table, done: set<string>, rank: map<string, nat>,
                                              walk: seq<string>, j: nat)
    requires Ranked(profiles, done, rank) && IsWalk(profiles, walk)
    requires 0 < j < |walk| && walk[0] in done
    ensures walk[j] in done && rank[walk[j]] < rank[walk[0]]
  {
    if j > 1 {
      RankFallsAlongWalk(profiles, done, rank, walk, j - 1);
    }
    assert Next(profiles, walk[j - 1]) == Some(walk[j]);
  }

  /** References to existing profiles never name the empty string, so cycles lie among the others. */
  lemma {:induction false} RankedHasNoCycle(profiles: Table, done: set<string>, rank: map<string, nat>,
                                            cycle: seq<string>)
    requires Ranked(profiles, done, rank)
    requires forall p :: p in profiles && p != "" ==> p in done
    ensures !IsCycle(profiles, cycle)
  {
    if IsCycle(profiles, cycle) {
      var n := |cycle| - 1;
      assert Next(profiles, cycle[n - 1]) == Some(cycle[n]);
      RankFallsAlongWalk(profiles, done, rank, cycle, n);
    }
  }

  /** The suffix of a walk from the first visit of the profile it has come back to. */
  lemma {:induction false} ClosedWalkIsCycle(profiles: Table, path: seq<string>, start: nat)
    requires start < |path| && IsWalk(profiles, path)
    requires Next(profiles, path[|path| - 1]) == Some(path[start])
    ensures IsCycle(profiles, path[start..] + [path[start]])
  {
    var cycle := path[start..] + [path[start]];
    forall i, j | 0 <= i < j < |cycle| && j == i + 1
      ensures Next(profiles, cycle[i]) == Some(cycle[j])
    {
      if j < |cycle| - 1 {
        assert Next(profiles, path[start + i]) == Some(path[start + j]);
      }
    }
  }

  /** Ranks for the profiles of a finished walk: one more than the profile they lead to. */
  ghost function RankPath(rank: map<string, nat>, path: seq<string>, base: nat): map<string, nat> {
    if path == [] then rank else RankPath(rank, path[1..], base)[path[0] := base + |path|]
  }

  lemma {:induction false} RankOneMore(profiles: Table, done: set<string>, rank: map<string, nat>, p: string, r: nat)
    requires Ranked(profiles, done, rank) && p !in done
    requires LeadsInto(profiles, done, rank, p, r)
    ensures Ranked(profiles, done + {p}, rank[p := r])
  {
  }

  lemma {:induction false} RestOfWalk(profiles: Table, path: seq<string>)
    requires path != [] && IsWalk(profiles, path) && Distinct(path)
    ensures IsWalk(profiles, path[1..]) && Distinct(path[1..]) && path[0] !in path[1..]
    ensures |path| > 1 ==> Next(profiles, path[0]) == Some(path[1])
    ensures ToSet(path) == ToSet(path[1..]) + {path[0]}
  {
    var rest := path[1..];
    forall i, j | 0 <= i < j < |rest| && j == i + 1
      ensures Next(profiles, rest[i]) == Some(rest[j])
    {
      assert Next(profiles, path[i + 1]) == Some(path[j + 1]);
    }
    assert path == [path[0]] + rest;
  }

  lemma {:induction false} RankPathFacts(profiles: Table, done: set<string>, rank: map<string, nat>,
                                         path: seq<string>, base: nat)
    requires Ranked(profiles, done, rank)
    requires Distinct(path) && (forall p :: p in path ==> p !in done) && IsWalk(profiles, path)
    requires path != [] ==> LeadsInto(profiles, done, rank, path[|path| - 1], base + 1)
    ensures Ranked(profiles, done + ToSet(path), RankPath(rank, path, base))
    ensures path != [] ==> RankPath(rank, path, base)[path[0]] == base + |path|
  {
    if path == [] {
      assert done + ToSet(path) == done;
    } else {
      var rest := path[1..];
      RestOfWalk(profiles, path);
      RankPathFacts(profiles, done, rank, rest, base);
      assert done + ToSet(path) == done + ToSet(rest) + {path[0]};
      assert |path| > 1 ==> rest[0] in ToSet(rest);
      RankOneMore(profiles, done + ToSet(rest), RankPath(rank, rest, base), path[0], base + |path|);
    }
  }

  /**
    Walks from every profile not yet known to end. Reports a cycle exactly when there is one,
    and what it reports is one. The ghost result ranks the profiles of an acyclic table.
   */
  method ValidateProfileGraph(profiles: Table, names: seq<string>)
    returns (cycle: Option<seq<string>>, ghost rank: map<string, nat>)
    requires forall p :: p in names <==> p in profiles
    ensures cycle.Some? ==> IsCycle(profiles, cycle.value)
    ensures cycle.None? ==> forall c :: !IsCycle(profiles, c)
    ensures cycle.None? ==> Ranked(profiles, profiles.Keys - {""}, rank)
  {
    var done: set<string> := {};
    rank := map[];
    for i := 0 to |names|
      invariant done <= profiles.Keys - {""} && Ranked(profiles, done, rank)
      invariant forall k :: 0 <= k < i && names[k] != "" ==> names[k] in done
    {
      if names[i] !in done && names[i] != "" {
        assert names[i] in names;
        var path, closed := Follow(profiles, done, names[i]);
        if closed.Some? {
          return closed, rank;
        }
        ghost var last := Next(profiles, path[|path| - 1]);
        ghost var base := if last.Some? then rank[last.value] else 0;
        RankPathFacts(profiles, done, rank, path, base);
        rank := RankPath(rank, path, base);
        done := done + set p | p in path;
      }
    }
    cycle := None;
    assert forall p :: p in profiles && p != "" ==> p in names && p in done;
    assert done == profiles.Keys - {""};
    forall c
      ensures !IsCycle(profiles, c)
    {
      RankedHasNoCycle(profiles, done, rank, c);
    }
  }

  /** Follows references from one profile until they end, reach known ground, or close. */
  method Follow(profiles: Table, done: set<string>, name: string)
    returns (path: seq<string>, cycle: Option<seq<string>>)
    requires name in profiles && name != "" && name !in done
    ensures cycle.Some? ==> IsCycle(profiles, cycle.value)
    ensures cycle.None? ==>
              && path != [] && path[0] == name
              && Distinct(path) && IsWalk(profiles, path)
              && (forall p :: p in path ==> p in profiles && p != "" && p !in done)
              && match Next(profiles, path[|path| - 1])
                 case None => true
                 case Some(q) => q in done
  {
    path := [];
    var onPath: set<string> := {};
    var cursor := Some(name);
    while cursor.Some?
      invariant onPath == ToSet(path)
      invariant Distinct(path) && IsWalk(profiles, path)
      invariant forall p :: p in path ==> p in profiles && p != "" && p !in done
      invariant path == [] ==> cursor == Some(name)
      invariant path != [] ==> path[0] == name && Next(profiles, path[|path| - 1]) == cursor
      decreases profiles.Keys - onPath, cursor.Some?
    {
      var here := cursor.value;
      if here in onPath {
        var start :| 0 <= start < |path| && path[start] == here;
        ClosedWalkIsCycle(profiles, path, start);
        return path, Some(path[start..] + [here]);
      }
      if here in done {
        return path, None;
      }
      assert here in profiles.Keys - onPath;
      onPath := onPath + {here};
      path := path + [here];
      cursor := Next(profiles, here);
    }
    cycle := None;
  }

  // ------------------------------------------------------- nearest wins

  datatype TextField = ProfileField | ModelField | AuthField | AccountField
  datatype ListField = PreferredModels | AllowedModels | PreferredAccounts | AllowedAccounts

  /** What a rule says about a field; an empty preference says nothing, an empty restriction does. */
  function TextOf(r: Rule, f: TextField): Option<string> {
    match f
    case ProfileField => r.profile
    case ModelField => r.model
    case AuthField => r.authProfile
    case AccountField => r.account
  }

  function ListOf(r: Rule, f: ListField): Option<seq<string>> {
    match f
    case PreferredModels => if r.preferredModels == [] then None else Some(r.preferredModels)
    case AllowedModels => r.allowedModels
    case PreferredAccounts => if r.preferredAccounts == [] then None else Some(r.preferredAccounts)
    case AllowedAccounts => r.allowedAccounts
  }

  ghost function NearestText(chain: seq<Rule>, f: TextField): Option<string> {
    if chain == [] then None
    else if TextOf(chain[0], f).Some? then TextOf(chain[0], f)
    else NearestText(chain[1..], f)
  }

  ghost function NearestList(chain: seq<Rule>, f: ListField): Option<seq<string>> {
    if chain == [] then None
    else if ListOf(chain[0], f).Some? then ListOf(chain[0], f)
    else NearestList(chain[1..], f)
  }

  /** The i-th rule of the chain is the first that defines the field. */
  ghost predicate FirstText(chain: seq<Rule>, f: TextField, i: int) {
    0 <= i < |chain| && TextOf(chain[i], f).Some? && forall j :: 0 <= j < i ==> TextOf(chain[j], f).None?
  }

  ghost predicate FirstList(chain: seq<Rule>, f: ListField, i: int) {
    0 <= i < |chain| && ListOf(chain[i], f).Some? && forall j :: 0 <= j < i ==> ListOf(chain[j], f).None?
  }

  lemma {:induction false} NearestTextIs(chain: seq<Rule>, f: TextField, i: nat)
    requires FirstText(chain, f, i)
    ensures NearestText(chain, f) == TextOf(chain[i], f)
  {
    if i > 0 {
      NearestTextIs(chain[1..], f, i - 1);
    }
  }

  lemma {:induction false} NearestListIs(chain: seq<Rule>, f: ListField, i: nat)
    requires FirstList(chain, f, i)
    ensures NearestList(chain, f) == ListOf(chain[i], f)
  {
    if i > 0 {
      NearestListIs(chain[1..], f, i - 1);
    }
  }

  lemma {:induction false} NoNearest(chain: seq<Rule>, f: TextField, g: ListField)
    ensures (forall i :: 0 <= i < |chain| ==> TextOf(chain[i], f).None?) ==> NearestText(chain, f) == None
    ensures (forall i :: 0 <= i < |chain| ==> ListOf(chain[i], g).None?) ==> NearestList(chain, g) == None
  {
    if chain != [] {
      NoNearest(chain[1..], f, g);
    }
  }

  ghost predicate NearestWins(merged: Rule, chain: seq<Rule>) {
    && (forall f :: TextOf(merged, f) == NearestText(chain, f))
    && (forall f :: ListOf(merged, f) == NearestList(chain, f))
  }

  /** The first rule of the chain that defines a field decides; a field none defines stays open. */
  lemma {:induction false} NearestWinsMeans(merged: Rule, chain: seq<Rule>, f: TextField, g: ListField)
    requires NearestWins(merged, chain)
    ensures forall i :: FirstText(chain, f, i) ==> TextOf(merged, f) == TextOf(chain[i], f)
    ensures forall i :: FirstList(chain, g, i) ==> ListOf(merged, g) == ListOf(chain[i], g)
    ensures (forall i :: 0 <= i < |chain| ==> TextOf(chain[i], f).None?) ==> TextOf(merged, f) == None
    ensures (forall i :: 0 <= i < |chain| ==> ListOf(chain[i], g).None?) ==> ListOf(merged, g) == None
  {
    forall i | FirstText(chain, f, i)
      ensures TextOf(merged, f) == TextOf(chain[i], f)
    {
      NearestTextIs(chain, f, i);
    }
    forall i | FirstList(chain, g, i)
      ensures ListOf(merged, g) == ListOf(chain[i], g)
    {
      NearestListIs(chain, g, i);
    }
    NoNearest(chain, f, g);
  }

  /** A text is what the i-th rule says, if that is the first to say anything. */
  lemma {:induction false} NearestTexts(merged: Rule, chain: seq<Rule>, i: nat)
    requires NearestWins(merged, chain) && i < |chain|
    ensures chain[i].profile.Some? && (forall j :: 0 <= j < i ==> chain[j].profile.None?) ==>
              merged.profile == chain[i].profile
    ensures chain[i].model.Some? && (forall j :: 0 <= j < i ==> chain[j].model.None?) ==>
              merged.model == chain[i].model
    ensures chain[i].authProfile.Some? && (forall j :: 0 <= j < i ==> chain[j].authProfile.None?) ==>
              merged.authProfile == chain[i].authProfile
    ensures chain[i].account.Some? && (forall j :: 0 <= j < i ==> chain[j].account.None?) ==>
              merged.account == chain[i].account
  {
    forall f | FirstText(chain, f, i)
      ensures TextOf(merged, f) == TextOf(chain[i], f)
    {
      NearestTextIs(chain, f, i);
    }
    assert TextOf(merged, ProfileField) == merged.profile && TextOf(merged, ModelField) == merged.model;
    assert TextOf(merged, AuthField) == merged.authProfile && TextOf(merged, AccountField) == merged.account;
    assert chain[i].profile.Some? && (forall j :: 0 <= j < i ==> chain[j].profile.None?) ==>
        FirstText(chain, ProfileField, i);
    assert chain[i].model.Some? && (forall j :: 0 <= j < i ==> chain[j].model.None?) ==>
        FirstText(chain, ModelField, i);
    assert chain[i].authProfile.Some? && (forall j :: 0 <= j < i ==> chain[j].authProfile.None?) ==>
        FirstText(chain, AuthField, i);
    assert chain[i].account.Some? && (forall j :: 0 <= j < i ==> chain[j].account.None?) ==>
        FirstText(chain, AccountField, i);
  }

  /** So is a list; an empty preference says nothing, an empty restriction does. */
  lemma {:induction false} NearestLists(merged: Rule, chain: seq<Rule>, i: nat)
    requires NearestWins(merged, chain) && i < |chain|
    ensures chain[i].preferredModels != [] && (forall j :: 0 <= j < i ==> chain[j].preferredModels == []) ==>
              merged.preferredModels == chain[i].preferredModels
    ensures chain[i].allowedModels.Some? && (forall j :: 0 <= j < i ==> chain[j].allowedModels.None?) ==>
              merged.allowedModels == chain[i].allowedModels
    ensures chain[i].preferredAccounts != [] && (forall j :: 0 <= j < i ==> chain[j].preferredAccounts == []) ==>
              merged.preferredAccounts == chain[i].preferredAccounts
    ensures chain[i].allowedAccounts.Some? && (forall j :: 0 <= j < i ==> chain[j].allowedAccounts.None?) ==>
              merged.allowedAccounts == chain[i].allowedAccounts
  {
    forall f | FirstList(chain, f, i)
      ensures ListOf(merged, f) == ListOf(chain[i], f)
    {
      NearestListIs(chain, f, i);
    }
    assert chain[i].preferredModels != [] && (forall j :: 0 <= j < i ==> chain[j].preferredModels == []) ==>
        FirstList(chain, PreferredModels, i);
    assert chain[i].allowedModels.Some? && (forall j :: 0 <= j < i ==> chain[j].allowedModels.None?) ==>
        FirstList(chain, AllowedModels, i);
    assert chain[i].preferredAccounts != [] && (forall j :: 0 <= j < i ==> chain[j].preferredAccounts == []) ==>
        FirstList(chain, PreferredAccounts, i);
    assert chain[i].allowedAccounts.Some? && (forall j :: 0 <= j < i ==> chain[j].allowedAccounts.None?) ==>
        FirstList(chain, AllowedAccounts, i);
  }

  /** A rule, the profile it defers to, that one's, and so on to the end. */
  ghost predicate IsChain(profiles: Table, rule: Rule, chain: seq<Rule>) {
    && chain != [] && chain[0] == rule
    && Linked(profiles, chain)
    && NextOf(profiles, chain[|chain| - 1]).None?
  }

  ghost predicate DefersTo(profiles: Table, near: Rule, far: Rule) {
    match NextOf(profiles, near)
    case Some(name) => far == profiles[name]
    case None => false
  }

  ghost predicate Linked(profiles: Table, chain: seq<Rule>) {
    forall i, j :: 0 <= i < j < |chain| && j == i + 1 ==> DefersTo(profiles, chain[i], chain[j])
  }

  /** Each rule of a chain names the profile that is next, and the last names none. */
  lemma {:induction false} ChainMeans(profiles: Table, rule: Rule, chain: seq<Rule>)
    ensures IsChain(profiles, rule, chain) <==>
              && chain != [] && chain[0] == rule
              && (forall i, j :: 0 <= i < j < |chain| && j == i + 1 ==> IsProfileOf(profiles, chain[i], chain[j]))
              && NamesNone(profiles, chain[|chain| - 1])
  {
    if chain != [] {
      forall i, j | 0 <= i < j < |chain| && j == i + 1
        ensures DefersTo(profiles, chain[i], chain[j]) <==> IsProfileOf(profiles, chain[i], chain[j])
      {
      }
      var end := NextOf(profiles, chain[|chain| - 1]);
      assert end.Some? ==> NamesProfile(profiles, chain[|chain| - 1], end.value);
    }
  }

  ghost predicate NamesNone(profiles: Table, rule: Rule) {
    forall name :: !NamesProfile(profiles, rule, name)
  }

  ghost predicate IsProfileOf(profiles: Table, near: Rule, far: Rule) {
    exists name :: NamesProfile(profiles, near, name) && far == profiles[name]
  }

  lemma {:induction false} LinkedSnoc(profiles: Table, chain: seq<Rule>, far: Rule)
    requires chain != [] && Linked(profiles, chain) && DefersTo(profiles, chain[|chain| - 1], far)
    ensures Linked(profiles, chain + [far])
  {
    var longer := chain + [far];
    forall i, j | 0 <= i < j < |longer| && j == i + 1
      ensures DefersTo(profiles, longer[i], longer[j])
    {
      if j < |chain| {
        assert DefersTo(profiles, chain[i], chain[j]);
      }
    }
  }

  lemma {:induction false} LinkedCons(profiles: Table, near: Rule, chain: seq<Rule>)
    requires chain != [] && Linked(profiles, chain) && DefersTo(profiles, near, chain[0])
    ensures Linked(profiles, [near] + chain)
  {
    var longer := [near] + chain;
    forall i, j | 0 <= i < j < |longer| && j == i + 1
      ensures DefersTo(profiles, longer[i], longer[j])
    {
      if i > 0 {
        assert DefersTo(profiles, chain[i - 1], chain[j - 1]);
      }
    }
  }

  lemma {:induction false} LinkedTail(profiles: Table, chain: seq<Rule>)
    requires |chain| > 1 && Linked(profiles, chain)
    ensures Linked(profiles, chain[1..]) && DefersTo(profiles, chain[0], chain[1])
  {
    var rest := chain[1..];
    forall i, j | 0 <= i < j < |rest| && j == i + 1
      ensures DefersTo(profiles, rest[i], rest[j])
    {
      assert DefersTo(profiles, chain[i + 1], chain[j + 1]);
    }
  }

  /** A rule has one chain. */
  lemma {:induction false} ChainIsUnique(profiles: Table, rule: Rule, a: seq<Rule>, b: seq<Rule>)
    requires IsChain(profiles, rule, a) && IsChain(profiles, rule, b)
    ensures a == b
    decreases |a|
  {
    if |a| > 1 && |b| > 1 {
      LinkedTail(profiles, a);
      LinkedTail(profiles, b);
      ChainIsUnique(profiles, a[1], a[1..], b[1..]);
      assert a == [a[0]] + a[1..] && b == [b[0]] + b[1..];
    } else if |a| > 1 {
      LinkedTail(profiles, a);
    } else if |b| > 1 {
      LinkedTail(profiles, b);
    } else {
      assert a == [rule] && b == [rule];
    }
  }

  ghost predicate Reversed(stack: seq<Rule>, chain: seq<Rule>) {
    && |stack| == |chain|
    && forall k :: 0 <= k < |stack| ==> stack[k] == chain[|chain| - 1 - k]
  }

  function Override(near: Rule, far: Rule): Rule {
    Rule(
      if near.profile.Some? then near.profile else far.profile,
      if near.model.Some? then near.model else far.model,
      if near.authProfile.Some? then near.authProfile else far.authProfile,
      if near.account.Some? then near.account else far.account,
      if near.preferredModels != [] then near.preferredModels else far.preferredModels,
      if near.allowedModels.Some? then near.allowedModels else far.allowedModels,
      if near.preferredAccounts != [] then near.preferredAccounts else far.preferredAccounts,
      if near.allowedAccounts.Some? then near.allowedAccounts else far.allowedAccounts)
  }

  lemma {:induction false} OverrideIsNearest(near: Rule, far: Rule, chain: seq<Rule>)
    requires NearestWins(far, chain)
    ensures NearestWins(Override(near, far), [near] + chain)
  {
    var longer := [near] + chain;
    assert longer[1..] == chain;
    forall f: TextField
      ensures TextOf(Override(near, far), f) == NearestText(longer, f)
    {
    }
    forall f: ListField
      ensures ListOf(Override(near, far), f) == NearestList(longer, f)
    {
      assert ListOf(far, f) == NearestList(chain, f);
    }
  }

  // ------------------------------------------------------------ resolution

  function OnlyAllowed(candidates: seq<string>, allowed: seq<string>): seq<string> {
    if candidates == [] then []
    else
      var init, last := OnlyAllowed(candidates[..|candidates| - 1], allowed), candidates[|candidates| - 1];
      if last in allowed then init + [last] else init
  }

  lemma {:induction false} OnlyAllowedFacts(candidates: seq<string>, allowed: seq<string>)
    ensures forall c :: c in OnlyAllowed(candidates, allowed) <==> c in candidates && c in allowed
  {
    if candidates != [] {
      OnlyAllowedFacts(candidates[..|candidates| - 1], allowed);
      assert candidates == candidates[..|candidates| - 1] + [candidates[|candidates| - 1]];
    }
  }

  /** The candidates at these places, in order, which are the places of all that are allowed. */
  ghost predicate KeptAt(candidates: seq<string>, allowed: seq<string>, kept: seq<string>, at: seq<nat>) {
    && |at| == |kept| && (forall i :: 0 <= i < |at| ==> at[i] < |candidates| && kept[i] == candidates[at[i]])
    && (forall i, j :: 0 <= i < j < |at| ==> at[i] < at[j])
    && forall k :: 0 <= k < |candidates| ==> (candidates[k] in allowed <==> k in at)
  }

  /** Filtering keeps order and repetition. */
  lemma {:induction false} OnlyAllowedKeeps(candidates: seq<string>, allowed: seq<string>) returns (at: seq<nat>)
    ensures KeptAt(candidates, allowed, OnlyAllowed(candidates, allowed), at)
  {
    at := [];
    if candidates != [] {
      var n := |candidates| - 1;
      var before := OnlyAllowedKeeps(candidates[..n], allowed);
      at := before;
      if candidates[n] in allowed {
        at := before + [n];
      }
      forall k | 0 <= k < |candidates|
        ensures candidates[k] in allowed <==> k in at
      {
        if k < n {
          assert candidates[..n][k] == candidates[k] && (k in at <==> k in before);
        } else {
          assert n !in before;
          assert candidates[n] in allowed ==> at[|before|] == n;
        }
      }
    }
  }

  /** A value that is set and not blank. */
  function Present(o: Option<string>): seq<string> {
    match o
    case Some(s) => if s == "" then [] else [s]
    case None => []
  }

  datatype Resolution =
    | Resolved(refs: seq<string>)
    | NoAllowedMatch(candidates: seq<string>, allowed: seq<string>)
    | MissingModel

  function WantedModels(rule: Rule): seq<string> {
    Unique(Present(rule.model) + rule.preferredModels)
  }

  /** The restriction in force: an absent or empty list restricts nothing. */
  function Restriction(list: Option<seq<string>>): Option<seq<string>> {
    match list
    case Some(values) => if values == [] then None else Some(Unique(values))
    case None => None
  }

  /** An account reference in full form. */
  function FullRef(provider: string, account: string): string {
    if '.' in account then account else provider + "." + account
  }

  function FullRefs(provider: string, accounts: seq<string>): seq<string> {
    seq(|accounts|, i requires 0 <= i < |accounts| => FullRef(provider, accounts[i]))
  }

  function ExplicitRefs(rule: Rule, provider: string): seq<string> {
    Unique(FullRefs(provider, Present(rule.account) + rule.preferredAccounts))
  }

  function AllowedRefs(rule: Rule, provider: string): Option<seq<string>> {
    match rule.allowedAccounts
    case Some(list) => Restriction(Some(FullRefs(provider, list)))
    case None => None
  }

  /** What a rule asks for: the model first, then the preferred ones. */
  lemma {:induction false} WantedModelsMean(rule: Rule)
    ensures var first := if rule.model.Some? then [rule.model.value] else [];
            IsUniqueOf(first + rule.preferredModels, WantedModels(rule))
  {
    var first := if rule.model.Some? then [rule.model.value] else [];
    UniqueIs(Present(rule.model) + rule.preferredModels);
    if rule.model == Some("") {
      assert Present(rule.model) + rule.preferredModels == rule.preferredModels;
      BlankAhead(rule.preferredModels, WantedModels(rule));
      assert first == [""];
    }
  }

  lemma {:induction false} BlankAhead(values: seq<string>, once: seq<string>)
    requires IsUniqueOf(values, once)
    ensures IsUniqueOf([""] + values, once)
  {
    var longer := [""] + values;
    assert forall v :: v in longer <==> v == "" || v in values;
    forall i, j | 0 <= i < j < |once|
      ensures Precedes(longer, once[i], once[j])
    {
      assert once[j] in once;
      var k :| 0 <= k < |values| && values[k] == once[i] && once[j] !in values[..k + 1];
      assert longer[k + 1] == once[i] && longer[..k + 2] == [""] + values[..k + 1];
      var m := k + 1;
      assert longer[m] == once[i] && once[j] !in longer[..m + 1];
    }
  }

  /** The restriction is there exactly when a list is given that is not empty. */
  lemma {:induction false} RestrictionMeans(list: Option<seq<string>>)
    ensures Restriction(list).None? <==> list.None? || list.value == []
    ensures Restriction(list).Some? ==> IsUniqueOf(list.value, Restriction(list).value)
  {
    if list.Some? {
      UniqueIs(list.value);
    }
  }

  /** The references of a rule: the account first, then the preferred ones; those with a dot as they are. */
  lemma {:induction false} RefsMean(rule: Rule, provider: string)
    ensures var accounts := Present(rule.account) + rule.preferredAccounts;
            IsUniqueOf(Completed(provider, accounts), ExplicitRefs(rule, provider))
    ensures AllowedRefs(rule, provider).None? <==> rule.allowedAccounts.None? || rule.allowedAccounts.value == []
    ensures AllowedRefs(rule, provider).Some? ==>
              IsUniqueOf(Completed(provider, rule.allowedAccounts.value), AllowedRefs(rule, provider).value)
  {
    var accounts := Present(rule.account) + rule.preferredAccounts;
    assert Completed(provider, accounts) == FullRefs(provider, accounts);
    UniqueIs(FullRefs(provider, accounts));
    if rule.allowedAccounts.Some? {
      var list := rule.allowedAccounts.value;
      assert Completed(provider, list) == FullRefs(provider, list);
      RestrictionMeans(Some(FullRefs(provider, list)));
      assert list == [] <==> FullRefs(provider, list) == [];
    }
  }

  ghost function Completed(provider: string, accounts: seq<string>): seq<string> {
    seq(|accounts|, i requires 0 <= i < |accounts| =>
      if exists k :: 0 <= k < |accounts[i]| && accounts[i][k] == '.' then accounts[i]
      else provider + "." + accounts[i])
  }

  lemma {:induction false} ExplicitRefsAreNotBlank(rule: Rule, provider: string)
    ensures "" !in ExplicitRefs(rule, provider)
  {
    UniqueFacts(FullRefs(provider, Present(rule.account) + rule.preferredAccounts));
  }

  /** Explicit references that are allowed come first, the fallback only when none is left. */
  ghost predicate AccountsChosen(explicit: seq<string>, fallback: seq<string>, restriction: Option<seq<string>>,
                                 result: Resolution) {
    match restriction
    case None => result == Resolved(if explicit != [] then explicit else fallback)
    case Some(allowed) =>
      if explicit + fallback == [] then result == Resolved(allowed)
      else
        && (result.NoAllowedMatch? <==> forall c :: c in explicit + fallback ==> c !in allowed)
        && (result.NoAllowedMatch? ==>
              IsUniqueOf(explicit + fallback, result.candidates) && result.allowed == allowed)
        && (result.Resolved? ==> result.refs != [] && forall r :: r in result.refs ==> r in allowed)
        && (result.Resolved? && (exists c :: c in explicit && c in allowed) ==>
            result.refs == OnlyAllowed(explicit, allowed))
        && (result.Resolved? && (forall c :: c in explicit ==> c !in allowed) ==> result.refs == fallback)
  }

  method ChooseAccounts(explicit: seq<string>, fallback: seq<string>, restriction: Option<seq<string>>)
    returns (result: Resolution)
    requires "" !in explicit && "" !in fallback && |fallback| <= 1
    ensures !result.MissingModel? && AccountsChosen(explicit, fallback, restriction, result)
  {
    if restriction.None? {
      return Resolved(if explicit != [] then explicit else fallback);
    }
    var allowed := restriction.value;
    if explicit + fallback == [] {
      return Resolved(allowed);
    }
    var filtered := OnlyAllowed(explicit, allowed);
    OnlyAllowedFacts(explicit, allowed);
    assert filtered != [] ==> filtered[0] in filtered;
    if filtered != [] {
      return Resolved(filtered);
    }
    if fallback != [] && fallback[0] in allowed {
      return Resolved(fallback);
    }
    UniqueIs(explicit + fallback);
    return NoAllowedMatch(Unique(explicit + fallback), allowed);
  }

  datatype BuildResult = Built(resolver: Resolver) | CycleFound(cycle: seq<string>)

  class Resolver {
    const profiles: Table
    /** Witness that references end. */
    ghost const rank: map<string, nat>

    constructor (profiles: Table, ghost rank: map<string, nat>)
      requires Ranked(profiles, profiles.Keys - {""}, rank)
      ensures this.profiles == profiles && Valid()
    {
      this.profiles, this.rank := profiles, rank;
    }

    ghost predicate Valid() {
      Ranked(profiles, profiles.Keys - {""}, rank)
    }

    /** The chain of a rule: itself, the profile it defers to, and so on. */
    ghost function ChainOf(rule: Rule): (chain: seq<Rule>)
      requires Valid()
      ensures IsChain(profiles, rule, chain)
      decreases match NextOf(profiles, rule) case Some(name) => 1 + rank[name] case None => 0
    {
      match NextOf(profiles, rule)
      case None => [rule]
      case Some(name) =>
        assert name in profiles.Keys - {""} && NextOf(profiles, profiles[name]) == Next(profiles, name);
        var rest := ChainOf(profiles[name]);
        LinkedCons(profiles, rule, rest);
        [rule] + rest
    }

    /**
      Merges a role's rule with the profiles it defers to. In a table without cycles this ends
      for every rule, and each field has the value of the nearest rule that defines it.
     */
    method MergeRuleChain(rule: Rule) returns (merged: Rule)
      requires Valid()
      ensures NearestWins(merged, ChainOf(rule))
    {
      // The stack holds the chain with the farthest rule first.
      var stack := [rule];
      var current := rule;
      ghost var chain := [rule];
      while NextOf(profiles, current).Some?
        invariant chain != [] && chain[0] == rule && chain[|chain| - 1] == current
        invariant Linked(profiles, chain) && Reversed(stack, chain)
        decreases match NextOf(profiles, current) case Some(name) => 1 + rank[name] case None => 0
      {
        var name := NextOf(profiles, current).value;
        assert name in profiles.Keys - {""};
        LinkedSnoc(profiles, chain, profiles[name]);
        current := profiles[name];
        assert NextOf(profiles, current) == Next(profiles, name);
        stack := [current] + stack;
        chain := chain + [current];
      }
      ChainIsUnique(profiles, rule, chain, ChainOf(rule));
      merged := Fold(stack, chain);
    }

    method Fold(stack: seq<Rule>, ghost chain: seq<Rule>) returns (merged: Rule)
      requires Reversed(stack, chain)
      ensures NearestWins(merged, chain)
    {
      merged := EmptyRule;
      assert NearestWins(EmptyRule, []) by {
        forall f: ListField
          ensures ListOf(EmptyRule, f) == NearestList([], f)
        {
        }
      }
      ghost var n := |stack|;
      assert chain[n..] == [];
      for k := 0 to |stack|
        invariant NearestWins(merged, chain[n - k..])
      {
        OverrideIsNearest(stack[k], merged, chain[n - k..]);
        assert chain[n - k - 1..] == [stack[k]] + chain[n - k..];
        merged := Override(stack[k], merged);
      }
      assert chain[0..] == chain;
    }

    /** Wanted models in order, restricted to the allowed ones; `defaults` are the runtime's. */
    method ResolvePreferredModels(rule: Rule, defaults: seq<string>) returns (result: Resolution)
      ensures var wanted, allowed := WantedModels(rule), Restriction(rule.allowedModels);
              && (result.NoAllowedMatch? <==>
                    wanted != [] && allowed.Some? && forall c :: c in wanted ==> c !in allowed.value)
              && (result.NoAllowedMatch? ==> result == NoAllowedMatch(wanted, allowed.value))
              && (result.MissingModel? <==> wanted == [] && allowed.None? && defaults == [])
              && (result.Resolved? && allowed.Some? ==> forall m :: m in result.refs ==> m in allowed.value)
              && (result.Resolved? && wanted != [] ==>
                    result.refs != [] &&
                    result.refs == if allowed.Some? then OnlyAllowed(wanted, allowed.value) else wanted)
              && (result.Resolved? && wanted == [] ==>
                    result.refs == if allowed.Some? then allowed.value else defaults)
    {
      var candidates := Unique(Present(rule.model) + rule.preferredModels);
      var allowed := Restriction(rule.allowedModels);
      if allowed.None? {
        if candidates != [] {
          return Resolved(candidates);
        }
        return if defaults != [] then Resolved(defaults) else MissingModel;
      }
      if candidates == [] {
        return Resolved(allowed.value);
      }
      var filtered := OnlyAllowed(candidates, allowed.value);
      OnlyAllowedFacts(candidates, allowed.value);
      if filtered != [] {
        assert filtered[0] in filtered;
        return Resolved(filtered);
      }
      return NoAllowedMatch(candidates, allowed.value);
    }

    /**
      Accounts for a provider: the explicit ones that are allowed, and the provider's default
      account only when none of those is left. Fails exactly when something was wanted and
      nothing of it is allowed.
     */
    method ResolvePreferredAccountRefs(rule: Rule, provider: Option<string>, defaultAccount: Option<string>)
      returns (result: Resolution)
      ensures !result.MissingModel?
      ensures Present(rule.authProfile) != [] ==> result == Resolved([])
      ensures Present(rule.authProfile) == [] && Present(provider) == [] ==>
                result == Resolved(Unique(Present(rule.account) + rule.preferredAccounts))
      ensures Present(rule.authProfile) == [] && Present(provider) != [] ==>
                AccountsChosen(ExplicitRefs(rule, provider.value), FullRefs(provider.value, Present(defaultAccount)),
                               AllowedRefs(rule, provider.value), result)
    {
      if Present(rule.authProfile) != [] {
        return Resolved([]);
      }
      if Present(provider) == [] {
        return Resolved(Unique(Present(rule.account) + rule.preferredAccounts));
      }
      ExplicitRefsAreNotBlank(rule, provider.value);
      result := ChooseAccounts(ExplicitRefs(rule, provider.value), FullRefs(provider.value, Present(defaultAccount)),
                               AllowedRefs(rule, provider.value));
    }
  }

  /** A resolver exists exactly for the tables without a cycle. */
  method Build(profiles: Table, names: seq<string>) returns (result: BuildResult)
    requires forall p :: p in names <==> p in profiles
    ensures result.Built? ==> result.resolver.profiles == profiles && result.resolver.Valid() && fresh(result.resolver)
    ensures result.CycleFound? ==> IsCycle(profiles, result.cycle)
    ensures result.Built? <==> forall c :: !IsCycle(profiles, c)
  {
    var cycle, rank := ValidateProfileGraph(profiles, names);
    match cycle
    case Some(c) => return CycleFound(c);
    case None =>
      var resolver := new Resolver(profiles, rank);
      return Built(resolver);
  }
}
