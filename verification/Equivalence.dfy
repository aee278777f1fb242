/**
  Model equivalence: the index built from configured groups, the one discovered from the
  providers' model lists, and their merge (src/providers/candidate-planner.ts,
  src/providers/router.ts).
 */
module Equivalence {
  import opened Common
  import Planner

  type Index = map<string, seq<string>>

  datatype Group = Group(primary: string, alternatives: seq<string>)

  /** A registered provider; None when it has no list to give right away. */
  datatype Listing = Listing(provider: string, models: Option<seq<string>>)

  ghost predicate Lists(index: Index, a: string, b: string) {
    a in index && b in index[a]
  }

  /** Symmetric, irreflexive, free of duplicates and of blank specs. */
  ghost predicate Sane(index: Index) {
    && (forall a :: a in index ==> Distinct(index[a]) && a !in index[a] && "" !in index[a])
    && (forall a, b :: Lists(index, a, b) ==> Lists(index, b, a))
  }

  function Members(g: Group): seq<string> {
    Unique([g.primary] + g.alternatives)
  }

  /** The spec is the group's primary one or one of its alternatives; a blank one is none. */
  ghost predicate IsMember(g: Group, spec: string) {
    spec != "" && (spec == g.primary || spec in g.alternatives)
  }

  lemma {:induction false} MembersAre(g: Group)
    ensures Distinct(Members(g)) && forall s :: s in Members(g) <==> IsMember(g, s)
  {
    UniqueFacts([g.primary] + g.alternatives);
  }

  ghost predicate InOneGroup(groups: seq<Group>, a: string, b: string) {
    exists g :: g in groups && IsMember(g, a) && IsMember(g, b)
  }

  // ------------------------------------------------------- relating specs

  function Without(specs: seq<string>, s: string): seq<string> {
    if specs == [] then []
    else
      var init, last := Without(specs[..|specs| - 1], s), specs[|specs| - 1];
      if last == s then init else init + [last]
  }

  lemma {:induction false} WithoutFacts(specs: seq<string>, s: string)
    ensures forall x :: x in Without(specs, s) <==> x in specs && x != s
  {
    if specs != [] {
      WithoutFacts(specs[..|specs| - 1], s);
      assert specs == specs[..|specs| - 1] + [specs[|specs| - 1]];
    }
  }

  lemma {:induction false} WithoutUnique(specs: seq<string>, s: string)
    ensures Without(Unique(specs), s) == Unique(Without(specs, s))
  {
    if specs != [] {
      var init, last := specs[..|specs| - 1], specs[|specs| - 1];
      WithoutUnique(init, s);
      WithoutFacts(init, s);
      UniqueFacts(init);
      UniqueFacts(Without(init, s));
      assert (Unique(init) + [last])[..|Unique(init)|] == Unique(init);
      assert (Without(init, s) + [last])[..|Without(init, s)|] == Without(init, s);
    }
  }

  /** The entry of a spec, empty if it has none. */
  ghost function At(index: Index, spec: string): seq<string> {
    if spec in index then index[spec] else []
  }

  /** The entries of some specs are the old ones and then the others of a list, in order. */
  ghost predicate Extends(was: Index, now: Index, done: set<string>, all: seq<string>) {
    forall s :: ExtendedAt(was, now, done, all, s)
  }

  ghost predicate ExtendedAt(was: Index, now: Index, done: set<string>, all: seq<string>, s: string) {
    if s in done then IsUniqueOf(At(was, s) + Without(all, s), At(now, s)) else At(now, s) == At(was, s)
  }

  lemma {:induction false} EntryExtended(was: Index, now: Index, done: set<string>, all: seq<string>, s: string)
    requires ExtendedAt(was, now, done, all, s)
    ensures IsUniqueOf(At(was, s) + Without(all, s), Unique(At(now, s) + Without(all, s)))
  {
    if s in done {
      WithoutFacts(all, s);
      UniqueAbsorbs(At(now, s), Without(all, s));
    } else {
      UniqueIs(At(now, s) + Without(all, s));
    }
  }

  lemma {:induction false} ExtendOne(was: Index, now: Index, done: set<string>, all: seq<string>, s: string)
    requires Extends(was, now, done, all)
    ensures Extends(was, now[s := Unique(At(now, s) + Without(all, s))], done + {s}, all)
  {
    EntryExtended(was, now, done, all, s);
    var next := now[s := Unique(At(now, s) + Without(all, s))];
    forall x
      ensures ExtendedAt(was, next, done + {s}, all, x)
    {
      if x != s {
        assert ExtendedAt(was, now, done, all, x);
        assert At(next, x) == At(now, x);
      }
    }
  }

  ghost predicate DuplicateFree(index: Index) {
    forall a :: a in index ==> Distinct(index[a])
  }

  /** What relating some specs to a full list of them adds to an index. */
  ghost predicate Relates(was: Index, now: Index, done: set<string>, all: seq<string>) {
    && now.Keys == was.Keys + done
    && (forall a, b :: Lists(now, a, b) <==>
          (Lists(was, a, b) && (a in done ==> b != "")) || (a in done && b in all && b != a && b != ""))
  }

  lemma {:induction false} RelateOne(was: Index, now: Index, done: set<string>, all: seq<string>, s: string)
    requires Relates(was, now, done, all) && s in all
    ensures var existing := if s in now then now[s] else [];
            Relates(was, now[s := Unique(existing + Without(all, s))], done + {s}, all)
  {
    var existing := if s in now then now[s] else [];
    UniqueFacts(existing + Without(all, s));
    WithoutFacts(all, s);
    var next := now[s := Unique(existing + Without(all, s))];
    forall a, b
      ensures Lists(next, a, b) <==>
                (Lists(was, a, b) && (a in done + {s} ==> b != ""))
                    || (a in done + {s} && b in all && b != a && b != "")
    {
      if a != s {
        assert Lists(next, a, b) <==> Lists(now, a, b);
      } else {
        assert Lists(next, s, b) <==> (Lists(now, s, b) || (b in all && b != s)) && b != "";
      }
    }
  }

  /** Some specs are related to a list, the others of it behind what they had. */
  ghost predicate AllRelated(was: Index, now: Index, done: seq<string>, all: seq<string>) {
    DuplicateFree(now) && Relates(was, now, ToSet(done), all) && Extends(was, now, ToSet(done), all)
  }

  lemma {:induction false} RelateNext(was: Index, now: Index, all: seq<string>, i: nat)
    requires i < |all| && AllRelated(was, now, all[..i], all)
    ensures var existing := if all[i] in now then now[all[i]] else [];
            AllRelated(was, now[all[i] := Unique(existing + Without(all, all[i]))], all[..i + 1], all)
  {
    var existing := if all[i] in now then now[all[i]] else [];
    RelateOne(was, now, ToSet(all[..i]), all, all[i]);
    ExtendOne(was, now, ToSet(all[..i]), all, all[i]);
    UniqueFacts(existing + Without(all, all[i]));
    StaysDuplicateFree(now, all[i], Unique(existing + Without(all, all[i])));
    ToSetNext(all, i);
  }

  lemma {:induction false} StaysDuplicateFree(index: Index, s: string, specs: seq<string>)
    requires DuplicateFree(index) && Distinct(specs)
    ensures DuplicateFree(index[s := specs])
  {
  }

  /** Relates every spec of a list to the others of it. */
  method RelateAll(index: Index, all: seq<string>) returns (next: Index)
    requires DuplicateFree(index)
    ensures AllRelated(index, next, all, all)
  {
    next := index;
    for i := 0 to |all|
      invariant AllRelated(index, next, all[..i], all)
    {
      var existing := if all[i] in next then next[all[i]] else [];
      RelateNext(index, next, all, i);
      next := next[all[i] := Unique(existing + Without(all, all[i]))];
    }
    assert all[..|all|] == all;
  }

  // ---------------------------------------------------- configured groups

  /** Two specs are related exactly when some configured group holds both. */
  method BuildModelEquivalenceIndex(groups: seq<Group>) returns (index: Index)
    ensures Sane(index)
    ensures forall a, b :: Lists(index, a, b) <==> a != b && InOneGroup(groups, a, b)
    ensures forall a :: a in index <==> InOneGroup(groups, a, a)
    ensures forall a :: IsUniqueOf(Related(groups, a), At(index, a))
  {
    index := map[];
    for i := 0 to |groups|
      invariant IndexOf(groups[..i], index) && InGroupOrder(groups[..i], index)
    {
      var members := Members(groups[i]);
      ghost var was := index;
      index := RelateAll(index, members);
      GroupStep(groups, i, was, index);
      GroupOrderStep(groups, i, was, index);
    }
    assert groups[..|groups|] == groups;
    assert forall a :: a in index ==> forall b :: b in index[a] ==> Lists(index, a, b);
  }

  ghost predicate IndexOf(groups: seq<Group>, index: Index) {
    && DuplicateFree(index)
    && (forall a, b :: Lists(index, a, b) <==> a != b && InOneGroup(groups, a, b))
    && (forall a :: a in index <==> InOneGroup(groups, a, a))
  }

  lemma {:induction false} GroupStep(groups: seq<Group>, i: nat, was: Index, now: Index)
    requires i < |groups| && IndexOf(groups[..i], was) && DuplicateFree(now)
    requires Relates(was, now, ToSet(Members(groups[i])), Members(groups[i]))
    ensures IndexOf(groups[..i + 1], now)
  {
    var members := Members(groups[i]);
    MembersAre(groups[i]);
    forall a, b
      ensures Lists(now, a, b) <==> a != b && InOneGroup(groups[..i + 1], a, b)
    {
      OneMoreGroup(groups, i, a, b);
      assert Lists(was, a, b) <==> a != b && InOneGroup(groups[..i], a, b);
    }
    forall a
      ensures a in now <==> InOneGroup(groups[..i + 1], a, a)
    {
      OneMoreGroup(groups, i, a, a);
    }
  }

  /** The other specs of the groups that hold a spec, group by group: the primary one, then the alternatives. */
  ghost function Related(groups: seq<Group>, spec: string): seq<string> {
    if groups == [] then []
    else
      var g := groups[|groups| - 1];
      Related(groups[..|groups| - 1], spec)
      + if IsMember(g, spec) then Without([g.primary] + g.alternatives, spec) else []
  }

  ghost predicate InGroupOrder(groups: seq<Group>, index: Index) {
    forall a :: IsUniqueOf(Related(groups, a), At(index, a))
  }

  lemma {:induction false} GroupOrderStep(groups: seq<Group>, i: nat, was: Index, now: Index)
    requires i < |groups| && InGroupOrder(groups[..i], was)
    requires Extends(was, now, ToSet(Members(groups[i])), Members(groups[i]))
    ensures InGroupOrder(groups[..i + 1], now)
  {
    forall a
      ensures IsUniqueOf(Related(groups[..i + 1], a), At(now, a))
    {
      assert groups[..i + 1][..i] == groups[..i];
      assert ExtendedAt(was, now, ToSet(Members(groups[i])), Members(groups[i]), a);
      GroupOrderAt(Related(groups[..i], a), groups[i], was, now, a);
    }
  }

  lemma {:induction false} GroupOrderAt(before: seq<string>, g: Group, was: Index, now: Index, a: string)
    requires IsUniqueOf(before, At(was, a)) && ExtendedAt(was, now, ToSet(Members(g)), Members(g), a)
    ensures IsUniqueOf(before + (if IsMember(g, a) then Without([g.primary] + g.alternatives, a) else []), At(now, a))
  {
    MembersAre(g);
    if IsMember(g, a) {
      var others := Without([g.primary] + g.alternatives, a);
      WithoutUnique([g.primary] + g.alternatives, a);
      UniqueIs(others);
      UniqueOfParts(before, At(was, a), others, Without(Members(g), a), At(now, a));
    } else {
      assert before + [] == before;
    }
  }

  lemma {:induction false} OneMoreGroup(groups: seq<Group>, i: nat, a: string, b: string)
    requires i < |groups|
    ensures InOneGroup(groups[..i + 1], a, b) <==>
              InOneGroup(groups[..i], a, b) || (IsMember(groups[i], a) && IsMember(groups[i], b))
  {
    assert groups[..i + 1] == groups[..i] + [groups[i]];
  }

  // ------------------------------------------------- discovered equivalents

  ghost predicate Serves(listings: seq<Listing>, model: string, spec: string) {
    exists l :: l in listings && l.models.Some? && model in l.models.value && spec == l.provider + "/" + model
  }

  /** Two specs name the same model at registered providers that list it. */
  ghost predicate ServedTogether(listings: seq<Listing>, a: string, b: string) {
    exists model :: Serves(listings, model, a) && Serves(listings, model, b)
  }

  /** How many entries of all providers' lists name a model; one list may name it twice. */
  ghost function TimesListed(listings: seq<Listing>, model: string): nat {
    if listings == [] then 0
    else
      var last := listings[|listings| - 1];
      TimesListed(listings[..|listings| - 1], model)
      + if last.models.Some? then multiset(last.models.value)[model] else 0
  }

  /** The spec names a model that two or more list entries name. */
  ghost predicate Shared(listings: seq<Listing>, spec: string) {
    exists model :: Serves(listings, model, spec) && TimesListed(listings, model) >= 2
  }

  /** The specs found for each model are those of the providers listing it, one per entry. */
  ghost predicate Collected(listings: seq<Listing>, found: map<string, seq<string>>, order: seq<string>) {
    && (forall m :: m in order <==> m in found)
    && (forall m, s :: m in found && s in found[m] <==> Serves(listings, m, s))
    && (forall m :: TimesListed(listings, m) == if m in found then |found[m]| else 0)
  }

  // ---- in which order they are found

  /** One spec of a provider for each time its list names the model. */
  ghost function Own(provider: string, models: seq<string>, model: string): seq<string> {
    if models == [] then []
    else
      Own(provider, models[..|models| - 1], model)
      + if models[|models| - 1] == model then [provider + "/" + model] else []
  }

  /** A model's specs, provider by provider. */
  ghost function SpecsOf(listings: seq<Listing>, model: string): seq<string> {
    if listings == [] then []
    else
      var l := listings[|listings| - 1];
      SpecsOf(listings[..|listings| - 1], model) + if l.models.Some? then Own(l.provider, l.models.value, model) else []
  }

  /** All the entries of all lists. */
  ghost function Entries(listings: seq<Listing>): seq<string> {
    if listings == [] then []
    else
      var l := listings[|listings| - 1];
      Entries(listings[..|listings| - 1]) + if l.models.Some? then l.models.value else []
  }

  /** Each model once, in the order in which they are first listed. */
  ghost predicate FirstMet(entries: seq<string>, models: seq<string>) {
    && Distinct(models) && (forall m :: m in models <==> m in entries)
    && forall i, j :: 0 <= i < j < |models| ==> Precedes(entries, models[i], models[j])
  }

  lemma {:induction false} FirstMetNext(entries: seq<string>, models: seq<string>, m: string)
    requires FirstMet(entries, models)
    ensures FirstMet(entries + [m], if m in models then models else models + [m])
  {
    var now := if m in models then models else models + [m];
    forall i, j | 0 <= i < j < |now|
      ensures Precedes(entries + [m], now[i], now[j])
    {
      if j < |models| {
        assert Precedes(entries, now[i], now[j]);
      } else {
        assert now[i] in models;
      }
      PrecedesIn(entries, [m], now[i], now[j]);
    }
  }

  ghost predicate FoundInOrder(listings: seq<Listing>, found: map<string, seq<string>>, order: seq<string>) {
    && FirstMet(Entries(listings), order)
    && forall m :: SpecsOf(listings, m) == if m in found then found[m] else []
  }

  lemma {:induction false} OneMoreListing(before: seq<Listing>, l: Listing, m: string)
    ensures SpecsOf(before + [l], m) ==
              SpecsOf(before, m) + if l.models.Some? then Own(l.provider, l.models.value, m) else []
    ensures Entries(before + [l]) == Entries(before) + if l.models.Some? then l.models.value else []
  {
    assert (before + [l])[..|before|] == before;
  }

  lemma {:induction false} NothingFound(before: seq<Listing>, l: Listing, found: map<string, seq<string>>,
                                        order: seq<string>)
    requires FoundInOrder(before, found, order) && (l.models == None || l.models == Some([]))
    ensures FoundInOrder(before + [l], found, order)
  {
    OneMoreListing(before, l, "");
    assert Entries(before) + [] == Entries(before);
    forall m
      ensures SpecsOf(before + [l], m) == SpecsOf(before, m)
    {
      OneMoreListing(before, l, m);
    }
  }

  /** The list read up to one more entry. */
  lemma {:induction false} OneMoreEntry(before: seq<Listing>, l: Listing, models: seq<string>, j: nat, m: string)
    requires j < |models|
    ensures var was, now := l.(models := Some(models[..j])), l.(models := Some(models[..j + 1]));
            && SpecsOf(before + [now], m) ==
                 SpecsOf(before + [was], m) + (if m == models[j] then [l.provider + "/" + m] else [])
            && Entries(before + [now]) == Entries(before + [was]) + [models[j]]
  {
    var was, now := l.(models := Some(models[..j])), l.(models := Some(models[..j + 1]));
    assert models[..j + 1][..j] == models[..j] && models[..j + 1] == models[..j] + [models[j]];
    OneMoreListing(before, was, m);
    OneMoreListing(before, now, m);
    AppendAssoc(SpecsOf(before, m), Own(l.provider, models[..j], m),
                if m == models[j] then [l.provider + "/" + m] else []);
    AppendAssoc(Entries(before), models[..j], [models[j]]);
  }

  lemma {:induction false} FoundNext(was: seq<Listing>, now: seq<Listing>, found: map<string, seq<string>>,
                                     order: seq<string>, model: string, spec: string)
    requires FoundInOrder(was, found, order) && forall m :: m in order <==> m in found
    requires forall m :: SpecsOf(now, m) == SpecsOf(was, m) + if m == model then [spec] else []
    requires Entries(now) == Entries(was) + [model]
    ensures FoundInOrder(now, found[model := (if model in found then found[model] else []) + [spec]],
                         if model in found then order else order + [model])
  {
    FirstMetNext(Entries(was), order, model);
  }

  lemma {:induction false} OneMoreModel(listings: seq<Listing>, l: Listing, done: seq<string>, model: string,
                                        m: string, s: string)
    requires l.models.Some?
    ensures Serves(listings + [l.(models := Some(done + [model]))], m, s) <==>
              Serves(listings + [l.(models := Some(done))], m, s)
                  || (m == model && s == l.provider + "/" + model)
    ensures TimesListed(listings + [l.(models := Some(done + [model]))], m)
            == TimesListed(listings + [l.(models := Some(done))], m) + if m == model then 1 else 0
  {
    var long, short := l.(models := Some(done + [model])), l.(models := Some(done));
    assert long in listings + [long] && short in listings + [short];
    assert (listings + [long])[..|listings|] == listings && (listings + [short])[..|listings|] == listings;
  }

  /** The specs of one more listed model go to the end of that model's list. */
  lemma {:induction false} CollectOne(
    was: seq<Listing>, now: seq<Listing>, found: map<string, seq<string>>, order: seq<string>, order': seq<string>,
        model: string, spec: string)
    requires Collected(was, found, order)
    requires order' == if model in found then order else order + [model]
    requires forall m, s :: Serves(now, m, s) <==> Serves(was, m, s) || (m == model && s == spec)
    requires forall m :: TimesListed(now, m) == TimesListed(was, m) + if m == model then 1 else 0
    ensures Collected(now, found[model := (if model in found then found[model] else []) + [spec]], order')
  {
    var next := found[model := (if model in found then found[model] else []) + [spec]];
    forall m, s
      ensures m in next && s in next[m] <==> Serves(now, m, s)
    {
      assert Serves(was, m, s) <==> m in found && s in found[m];
    }
  }

  lemma {:induction false} NothingListed(before: seq<Listing>, l: Listing, m: string, s: string)
    requires l.models == None || l.models == Some([])
    ensures Serves(before + [l], m, s) <==> Serves(before, m, s)
    ensures TimesListed(before + [l], m) == TimesListed(before, m)
  {
    assert (before + [l])[..|before|] == before;
    if Serves(before, m, s) {
      var x :| x in before && x.models.Some? && m in x.models.value && s == x.provider + "/" + m;
      assert x in before + [l];
    }
  }

  ghost predicate AllCollected(listings: seq<Listing>, found: map<string, seq<string>>, order: seq<string>) {
    Collected(listings, found, order) && FoundInOrder(listings, found, order)
  }

  lemma {:induction false} NothingCollected(before: seq<Listing>, l: Listing, found: map<string, seq<string>>,
                                            order: seq<string>)
    requires AllCollected(before, found, order) && (l.models == None || l.models == Some([]))
    ensures AllCollected(before + [l], found, order)
  {
    SameServed(before, l, found, order);
    NothingFound(before, l, found, order);
  }

  method CollectSpecs(listings: seq<Listing>) returns (found: map<string, seq<string>>, order: seq<string>)
    ensures AllCollected(listings, found, order)
  {
    found, order := map[], [];
    for i := 0 to |listings|
      invariant AllCollected(listings[..i], found, order)
    {
      assert listings[..i + 1] == listings[..i] + [listings[i]];
      if listings[i].models.Some? {
        found, order := CollectFrom(listings[..i], listings[i], found, order);
      } else {
        NothingCollected(listings[..i], listings[i], found, order);
      }
    }
    assert listings[..|listings|] == listings;
  }

  lemma {:induction false} SameServed(before: seq<Listing>, l: Listing, found: map<string, seq<string>>,
                                      order: seq<string>)
    requires Collected(before, found, order) && (l.models == None || l.models == Some([]))
    ensures Collected(before + [l], found, order)
  {
    forall m, s
      ensures m in found && s in found[m] <==> Serves(before + [l], m, s)
      ensures TimesListed(before + [l], m) == if m in found then |found[m]| else 0
    {
      NothingListed(before, l, m, s);
    }
  }

  lemma {:induction false} CollectNext(before: seq<Listing>, l: Listing, models: seq<string>, j: nat,
                                       found: map<string, seq<string>>, order: seq<string>, spec: string)
    requires l.models.Some? && j < |models| && spec == l.provider + "/" + models[j]
    requires Collected(before + [l.(models := Some(models[..j]))], found, order)
    ensures var m := models[j];
            Collected(before + [l.(models := Some(models[..j + 1]))],
                      found[m := (if m in found then found[m] else []) + [spec]],
                      if m in found then order else order + [m])
  {
    var was, now := before + [l.(models := Some(models[..j]))], before + [l.(models := Some(models[..j + 1]))];
    assert models[..j + 1] == models[..j] + [models[j]];
    forall m, s
      ensures Serves(now, m, s) <==> Serves(was, m, s) || (m == models[j] && s == spec)
      ensures TimesListed(now, m) == TimesListed(was, m) + if m == models[j] then 1 else 0
    {
      OneMoreModel(before, l, models[..j], models[j], m, s);
    }
    CollectOne(was, now, found, order, if models[j] in found then order else order + [models[j]], models[j], spec);
  }

  lemma {:induction false} CollectNextInOrder(before: seq<Listing>, l: Listing, models: seq<string>, j: nat,
                                              found: map<string, seq<string>>, order: seq<string>, spec: string)
    requires j < |models| && spec == l.provider + "/" + models[j] && forall m :: m in order <==> m in found
    requires FoundInOrder(before + [l.(models := Some(models[..j]))], found, order)
    ensures var m := models[j];
            FoundInOrder(before + [l.(models := Some(models[..j + 1]))],
                         found[m := (if m in found then found[m] else []) + [spec]],
                         if m in found then order else order + [m])
  {
    var was, now := before + [l.(models := Some(models[..j]))], before + [l.(models := Some(models[..j + 1]))];
    OneMoreEntry(before, l, models, j, "");
    forall m
      ensures SpecsOf(now, m) == SpecsOf(was, m) + if m == models[j] then [spec] else []
    {
      OneMoreEntry(before, l, models, j, m);
    }
    FoundNext(was, now, found, order, models[j], spec);
  }

  lemma {:induction false} AllCollectedNext(before: seq<Listing>, l: Listing, models: seq<string>, j: nat,
                                            found: map<string, seq<string>>, order: seq<string>, spec: string)
    requires l.models.Some? && j < |models| && spec == l.provider + "/" + models[j]
    requires AllCollected(before + [l.(models := Some(models[..j]))], found, order)
    ensures var m := models[j];
            AllCollected(before + [l.(models := Some(models[..j + 1]))],
                         found[m := (if m in found then found[m] else []) + [spec]],
                         if m in found then order else order + [m])
  {
    CollectNext(before, l, models, j, found, order, spec);
    CollectNextInOrder(before, l, models, j, found, order, spec);
  }

  method CollectFrom(ghost before: seq<Listing>, l: Listing, found0: map<string, seq<string>>, order0: seq<string>)
    returns (found: map<string, seq<string>>, order: seq<string>)
    requires l.models.Some? && AllCollected(before, found0, order0)
    ensures AllCollected(before + [l], found, order)
  {
    found, order := found0, order0;
    var models := l.models.value;
    NothingCollected(before, l.(models := Some([])), found, order);
    for j := 0 to |models|
      invariant AllCollected(before + [l.(models := Some(models[..j]))], found, order)
    {
      var spec := Planner.Join(l.provider, models[j]);
      AllCollectedNext(before, l, models, j, found, order, spec);
      if models[j] !in found {
        order := order + [models[j]];
      }
      found := found[models[j] := (if models[j] in found then found[models[j]] else []) + [spec]];
    }
    assert models[..|models|] == models && l.(models := Some(models)) == l;
  }

  /**
    Two specs are related exactly when they name the same listed model, and a spec has an entry
    exactly when its model is listed twice: by two providers, or by one provider twice, in which
    case the entry is empty.
   */
  method DiscoverModelEquivalents(listings: seq<Listing>) returns (index: Index)
    ensures Sane(index)
    ensures forall a, b :: Lists(index, a, b) <==> a != b && ServedTogether(listings, a, b)
    ensures forall a :: a in index <==> Shared(listings, a)
    ensures exists models :: FirstMet(Entries(listings), models) && InModelOrder(listings, models, index)
  {
    var found, order := CollectSpecs(listings);
    index := map[];
    for i := 0 to |order|
      invariant DiscoveredSo(listings, found, order[..i], index)
    {
      var specs := found[order[i]];
      ghost var was := index;
      if |specs| >= 2 {
        index := RelateAll(index, specs);
      }
      DiscoverNext(listings, found, order, i, was, index);
    }
    assert order[..|order|] == order;
    DiscoveredInOrder(listings, found, order, index);
  }

  lemma {:induction false} DiscoveredInOrder(
    listings: seq<Listing>, found: map<string, seq<string>>, order: seq<string>, index: Index)
    requires AllCollected(listings, found, order) && DiscoveredSo(listings, found, order, index)
    ensures Sane(index)
    ensures forall a, b :: Lists(index, a, b) <==> a != b && ServedTogether(listings, a, b)
    ensures forall a :: a in index <==> Shared(listings, a)
    ensures exists models :: FirstMet(Entries(listings), models) && InModelOrder(listings, models, index)
  {
    DiscoveredAll(listings, found, order, index);
  }

  ghost predicate DiscoveredSo(listings: seq<Listing>, found: map<string, seq<string>>, models: seq<string>,
                               index: Index) {
    Discovered(found, models, index) && InModelOrder(listings, models, index)
  }

  lemma {:induction false} DiscoverNext(listings: seq<Listing>, found: map<string, seq<string>>, order: seq<string>,
                                        i: nat, was: Index, now: Index)
    requires AllCollected(listings, found, order) && i < |order|
    requires DiscoveredSo(listings, found, order[..i], was)
    requires var specs := found[order[i]];
             if |specs| >= 2 then AllRelated(was, now, specs, specs) else now == was
    ensures DiscoveredSo(listings, found, order[..i + 1], now)
  {
    DiscoveredStep(listings, found, order, i, was, now);
    ModelOrderStep(listings, order, i, found[order[i]], was, now);
  }

  /** The other specs of some models that a spec is one of, model by model and in each as listed. */
  ghost function FromModels(listings: seq<Listing>, models: seq<string>, spec: string): seq<string> {
    if models == [] then []
    else
      var specs := SpecsOf(listings, models[|models| - 1]);
      FromModels(listings, models[..|models| - 1], spec) + if spec in specs then Without(specs, spec) else []
  }

  ghost predicate InModelOrder(listings: seq<Listing>, models: seq<string>, index: Index) {
    forall a :: IsUniqueOf(FromModels(listings, models, a), At(index, a))
  }

  lemma {:induction false} ModelOrderStep(listings: seq<Listing>, models: seq<string>, i: nat, specs: seq<string>,
                                          was: Index, now: Index)
    requires i < |models| && InModelOrder(listings, models[..i], was) && specs == SpecsOf(listings, models[i])
    requires if |specs| >= 2 then Extends(was, now, ToSet(specs), specs) else now == was
    ensures InModelOrder(listings, models[..i + 1], now)
  {
    forall a
      ensures IsUniqueOf(FromModels(listings, models[..i + 1], a), At(now, a))
    {
      assert models[..i + 1][..i] == models[..i];
      if |specs| >= 2 {
        assert ExtendedAt(was, now, ToSet(specs), specs, a);
      }
      ModelOrderAt(FromModels(listings, models[..i], a), specs, was, now, a);
    }
  }

  lemma {:induction false} ModelOrderAt(before: seq<string>, specs: seq<string>, was: Index, now: Index, a: string)
    requires IsUniqueOf(before, At(was, a))
    requires if |specs| >= 2 then ExtendedAt(was, now, ToSet(specs), specs, a) else now == was
    ensures IsUniqueOf(before + (if a in specs then Without(specs, a) else []), At(now, a))
  {
    var others := if a in specs then Without(specs, a) else [];
    if |specs| >= 2 && a in specs {
      UniqueOfFront(before, At(was, a), others, At(now, a));
    } else {
      if a in specs {
        assert specs == [a] && specs[..|specs| - 1] == [] && Without(specs[..|specs| - 1], a) == [];
      }
      assert before + others == before;
    }
  }

  ghost predicate FoundTogether(found: map<string, seq<string>>, models: seq<string>, a: string, b: string) {
    exists m :: m in models && m in found && a in found[m] && b in found[m]
  }

  ghost predicate FoundTwice(found: map<string, seq<string>>, models: seq<string>, a: string) {
    exists m :: m in models && m in found && a in found[m] && |found[m]| >= 2
  }

  lemma {:induction false} OneMoreFound(found: map<string, seq<string>>, order: seq<string>, i: nat, was: set<string>,
                                        now: set<string>)
    requires i < |order| && order[i] in found
    requires forall a :: a in was <==> FoundTwice(found, order[..i], a)
    requires now == if |found[order[i]]| >= 2 then was + ToSet(found[order[i]]) else was
    ensures forall a :: a in now <==> FoundTwice(found, order[..i + 1], a)
  {
    assert order[..i + 1] == order[..i] + [order[i]];
    forall a
      ensures FoundTwice(found, order[..i + 1], a) <==>
                FoundTwice(found, order[..i], a) || (a in found[order[i]] && |found[order[i]]| >= 2)
    {
      assert order[i] in order[..i + 1] && forall m :: m in order[..i] ==> m in order[..i + 1];
    }
  }

  /** The index relates the specs found for some models. */
  ghost predicate Discovered(found: map<string, seq<string>>, models: seq<string>, index: Index) {
    && DuplicateFree(index)
    && (forall a, b :: Lists(index, a, b) <==> a != b && FoundTogether(found, models, a, b))
    && (forall a :: a in index <==> FoundTwice(found, models, a))
  }

  /** One more model; one found only once has no two specs to relate. */
  lemma {:induction false} DiscoveredStep(
    listings: seq<Listing>, found: map<string, seq<string>>, order: seq<string>, i: nat, was: Index, now: Index)
    requires Collected(listings, found, order) && i < |order| && Discovered(found, order[..i], was)
    requires DuplicateFree(now)
    requires var specs := found[order[i]];
             if |specs| >= 2 then Relates(was, now, ToSet(specs), specs) else now == was
    ensures Discovered(found, order[..i + 1], now)
  {
    var specs := found[order[i]];
    OneMoreFound(found, order, i, was.Keys, now.Keys);
    assert order[..i + 1] == order[..i] + [order[i]];
    NoBlankSpec(listings, found, order, order[i]);
    forall a, b
      ensures Lists(now, a, b) <==> a != b && FoundTogether(found, order[..i + 1], a, b)
    {
      if |specs| < 2 && a in specs && b in specs {
        assert a == specs[0] && b == specs[0];
      }
      if Lists(was, a, b) {
        var m :| m in order[..i] && m in found && a in found[m] && b in found[m];
        NoBlankSpec(listings, found, order, m);
      }
    }
  }

  lemma {:induction false} DiscoveredAll(
    listings: seq<Listing>, found: map<string, seq<string>>, order: seq<string>, index: Index)
    requires Collected(listings, found, order) && Discovered(found, order, index)
    ensures Sane(index)
    ensures forall a, b :: Lists(index, a, b) <==> a != b && ServedTogether(listings, a, b)
    ensures forall a :: a in index <==> Shared(listings, a)
  {
    forall a, b
      ensures FoundTogether(found, order, a, b) <==> ServedTogether(listings, a, b)
      ensures ServedTogether(listings, a, b) ==> b != ""
    {
    }
    assert forall a :: FoundTwice(found, order, a) <==> Shared(listings, a);
    assert forall a :: a in index ==> forall b :: b in index[a] ==> Lists(index, a, b);
  }

  lemma {:induction false} NoBlankSpec(listings: seq<Listing>, found: map<string, seq<string>>, order: seq<string>,
                                       m: string)
    requires Collected(listings, found, order) && m in order
    ensures "" !in found[m]
  {
    forall s | s in found[m]
      ensures s != ""
    {
      assert Serves(listings, m, s);
    }
  }

  // ---------------------------------------------------------------- merging

  /** Some of the second index's entries are in. */
  ghost predicate Merging(a: Index, b: Index, done: set<string>, merged: Index) {
    && DuplicateFree(merged) && merged.Keys == a.Keys + done
    && forall x, y :: Lists(merged, x, y) <==> Lists(a, x, y) || (x in done && Lists(b, x, y))
  }

  lemma {:induction false} MergeOne(a: Index, b: Index, done: set<string>, merged: Index, spec: string)
    requires Sane(a) && Sane(b) && Merging(a, b, done, merged) && spec in b
    ensures var existing := if spec in merged then merged[spec] else [];
            Merging(a, b, done + {spec}, merged[spec := Unique(existing + b[spec])])
  {
    var existing := if spec in merged then merged[spec] else [];
    UniqueFacts(existing + b[spec]);
    var next := merged[spec := Unique(existing + b[spec])];
    forall x, y
      ensures Lists(next, x, y) <==> Lists(a, x, y) || (x in done + {spec} && Lists(b, x, y))
    {
      assert Lists(merged, x, y) <==> Lists(a, x, y) || (x in done && Lists(b, x, y));
      if x == spec {
        assert Lists(next, x, y) <==> (Lists(merged, x, y) || Lists(b, x, y)) && y != "";
      }
    }
  }

  lemma {:induction false} MergedIsSane(a: Index, b: Index, merged: Index)
    requires Sane(a) && Sane(b) && Merging(a, b, b.Keys, merged)
    ensures Sane(merged)
  {
    forall x | x in merged
      ensures x !in merged[x] && "" !in merged[x]
    {
      assert forall y :: y in merged[x] ==> Lists(merged, x, y);
    }
  }

  /** The entries of some specs are the first index's and then the second's. */
  ghost predicate MergedInOrder(a: Index, b: Index, done: set<string>, merged: Index) {
    forall k :: MergedAt(a, b, done, merged, k)
  }

  ghost predicate MergedAt(a: Index, b: Index, done: set<string>, merged: Index, k: string) {
    if k in done then IsUniqueOf(At(a, k) + At(b, k), At(merged, k)) else At(merged, k) == At(a, k)
  }

  lemma {:induction false} EntryMerged(a: Index, b: Index, done: set<string>, merged: Index, spec: string)
    requires MergedAt(a, b, done, merged, spec) && spec in b
    ensures IsUniqueOf(At(a, spec) + b[spec], Unique(At(merged, spec) + b[spec]))
  {
    if spec in done {
      UniqueAbsorbs(At(merged, spec), b[spec]);
    } else {
      UniqueIs(At(merged, spec) + b[spec]);
    }
  }

  lemma {:induction false} MergeOneInOrder(a: Index, b: Index, done: set<string>, merged: Index, spec: string)
    requires MergedInOrder(a, b, done, merged) && spec in b
    ensures MergedInOrder(a, b, done + {spec}, merged[spec := Unique(At(merged, spec) + b[spec])])
  {
    assert MergedAt(a, b, done, merged, spec);
    EntryMerged(a, b, done, merged, spec);
    var next := merged[spec := Unique(At(merged, spec) + b[spec])];
    forall k
      ensures MergedAt(a, b, done + {spec}, next, k)
    {
      if k != spec {
        assert MergedAt(a, b, done, merged, k);
        assert At(next, k) == At(merged, k);
      }
    }
  }

  ghost predicate MergedSoFar(a: Index, b: Index, done: seq<string>, merged: Index) {
    Merging(a, b, ToSet(done), merged) && MergedInOrder(a, b, ToSet(done), merged)
  }

  lemma {:induction false} MergeNext(a: Index, b: Index, order: seq<string>, i: nat, merged: Index)
    requires Sane(a) && Sane(b) && i < |order| && order[i] in b && MergedSoFar(a, b, order[..i], merged)
    ensures var existing := if order[i] in merged then merged[order[i]] else [];
            MergedSoFar(a, b, order[..i + 1], merged[order[i] := Unique(existing + b[order[i]])])
  {
    MergeOne(a, b, ToSet(order[..i]), merged, order[i]);
    MergeOneInOrder(a, b, ToSet(order[..i]), merged, order[i]);
    ToSetNext(order, i);
  }

  lemma {:induction false} MergedAll(a: Index, b: Index, merged: Index)
    requires Sane(a) && Sane(b) && MergedInOrder(a, b, b.Keys, merged)
    ensures forall k :: IsUniqueOf(At(a, k) + At(b, k), At(merged, k))
  {
    forall k
      ensures IsUniqueOf(At(a, k) + At(b, k), At(merged, k))
    {
      assert MergedAt(a, b, b.Keys, merged, k);
      if k !in b {
        assert At(a, k) + [] == At(a, k);
        UniqueOfItself(At(a, k));
      }
    }
  }

  /** The union of the two relations, the first index's specs first; both indexes' keys stay. */
  method MergeEquivalenceIndexes(a: Index, b: Index, order: seq<string>) returns (merged: Index)
    requires Sane(a) && Sane(b) && forall k :: k in order <==> k in b
    ensures Sane(merged) && merged.Keys == a.Keys + b.Keys
    ensures forall x, y :: Lists(merged, x, y) <==> Lists(a, x, y) || Lists(b, x, y)
    ensures forall k :: IsUniqueOf(At(a, k) + At(b, k), At(merged, k))
  {
    merged := a;
    for i := 0 to |order|
      invariant MergedSoFar(a, b, order[..i], merged)
    {
      var spec := order[i];
      var existing := if spec in merged then merged[spec] else [];
      MergeNext(a, b, order, i, merged);
      merged := merged[spec := Unique(existing + b[spec])];
    }
    assert order[..|order|] == order && ToSet(order) == b.Keys;
    MergedIsSane(a, b, merged);
    MergedAll(a, b, merged);
  }

  /** The router's index: configured and discovered equivalents together. */
  method BuildIndex(groups: seq<Group>, listings: seq<Listing>) returns (index: Index)
    ensures Sane(index)
    ensures forall a, b :: Lists(index, a, b) <==>
              a != b && (InOneGroup(groups, a, b) || ServedTogether(listings, a, b))
    ensures forall a :: a in index <==> InOneGroup(groups, a, a) || Shared(listings, a)
    ensures exists models :: FirstMet(Entries(listings), models) &&
              forall a :: IsUniqueOf(Related(groups, a) + FromModels(listings, models, a), At(index, a))
  {
    var manual := BuildModelEquivalenceIndex(groups);
    var discovered := DiscoverModelEquivalents(listings);
    var order := KeysInOrder(discovered);
    index := MergeEquivalenceIndexes(manual, discovered, order);
    ghost var models :| FirstMet(Entries(listings), models) && InModelOrder(listings, models, discovered);
    forall a
      ensures IsUniqueOf(Related(groups, a) + FromModels(listings, models, a), At(index, a))
    {
      UniqueOfParts(Related(groups, a), At(manual, a), FromModels(listings, models, a), At(discovered, a),
                    At(index, a));
    }
  }

  method KeysInOrder(index: Index) returns (order: seq<string>)
    ensures forall k :: k in order <==> k in index
  {
    order := [];
    var rest := index.Keys;
    while rest != {}
      invariant forall k :: k in index <==> k in order || k in rest
      decreases |rest|
    {
      var k :| k in rest;
      order, rest := order + [k], rest - {k};
    }
  }
}
