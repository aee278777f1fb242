/**
  Visible names for the tools of external services: a tool keeps its name if it is free, else it
  gets an alias (src/mcp/external-runtime.ts).
 */
module ToolNames {
  import opened Common

  datatype Service = Service(name: string, tools: seq<string>)

  datatype Entry = Entry(service: string, tool: string, visible: string)

  // ---------------------------------------------------------------- aliases

  function BaseAlias(service: string, tool: string): string {
    service + "_" + tool
  }

  function Alias(alias: string, suffix: nat): string {
    alias + "_" + Decimal(suffix)
  }

  lemma {:induction false} AliasIsInjective(alias: string, m: nat, n: nat)
    requires Alias(alias, m) == Alias(alias, n)
    ensures m == n
  {
    var a, b := Alias(alias, m), Alias(alias, n);
    assert a[|alias| + 1..] == Decimal(m) && b[|alias| + 1..] == Decimal(n);
    DecimalIsInjective(m, n);
  }

  /** The aliases with suffixes from 2 up to but not including a bound. */
  ghost function Tried(alias: string, suffix: nat): set<string>
    requires suffix >= 2
  {
    if suffix == 2 then {} else Tried(alias, suffix - 1) + {Alias(alias, suffix - 1)}
  }

  lemma {:induction false} TriedFacts(alias: string, suffix: nat)
    requires suffix >= 2
    ensures |Tried(alias, suffix)| == suffix - 2
    ensures forall x :: x in Tried(alias, suffix) ==> exists k :: 2 <= k < suffix && x == Alias(alias, k)
  {
    if suffix > 2 {
      TriedFacts(alias, suffix - 1);
      if Alias(alias, suffix - 1) in Tried(alias, suffix - 1) {
        var k :| 2 <= k < suffix - 1 && Alias(alias, suffix - 1) == Alias(alias, k);
        AliasIsInjective(alias, suffix - 1, k);
      }
    }
  }

  /** All suffixes below a bound are taken. */
  ghost predicate SearchedTo(alias: string, suffix: nat, taken: set<string>) {
    suffix >= 2 && forall j :: 2 <= j < suffix ==> Alias(alias, j) in taken
  }

  /** Aliases with different suffixes differ, and only finitely many names are taken. */
  lemma {:induction false} SearchIsBounded(alias: string, suffix: nat, taken: set<string>)
    requires SearchedTo(alias, suffix, taken)
    ensures suffix - 2 <= |taken|
  {
    TriedFacts(alias, suffix);
    SubsetIsSmaller(Tried(alias, suffix), taken);
  }

  method FirstFreeAlias(alias: string, taken: set<string>) returns (suffix: nat)
    ensures SearchedTo(alias, suffix, taken) && Alias(alias, suffix) !in taken
  {
    suffix := 2;
    while Alias(alias, suffix) in taken
      invariant SearchedTo(alias, suffix, taken) && suffix - 2 <= |taken|
      decreases |taken| + 2 - suffix
    {
      suffix := suffix + 1;
      SearchIsBounded(alias, suffix, taken);
    }
  }

  /** The plain alias if it is free, else the one with the smallest free suffix. */
  method AliasToolName(service: string, tool: string, taken: set<string>) returns (alias: string)
    ensures alias !in taken
    ensures var plain := service + "_" + tool;
            if plain !in taken then alias == plain
            else exists suffix :: SearchedTo(plain, suffix, taken) && alias == Alias(plain, suffix)
  {
    var plain := BaseAlias(service, tool);
    if plain !in taken {
      return plain;
    }
    var suffix := FirstFreeAlias(plain, taken);
    return Alias(plain, suffix);
  }

  // ------------------------------------------------------------- the listing

  /** Every tool of every service, in order. */
  ghost function AllTools(services: seq<Service>): seq<(string, string)> {
    if services == [] then []
    else
      var last := services[|services| - 1];
      AllTools(services[..|services| - 1]) + Own(last, |last.tools|)
  }

  ghost function Own(s: Service, n: nat): seq<(string, string)>
    requires n <= |s.tools|
  {
    seq(n, i requires 0 <= i < n => (s.name, s.tools[i]))
  }

  ghost function Sources(entries: seq<Entry>): seq<(string, string)> {
    seq(|entries|, i requires 0 <= i < |entries| => (entries[i].service, entries[i].tool))
  }

  ghost function Names(entries: seq<Entry>): set<string> {
    set e | e in entries :: e.visible
  }

  /** A tool keeps its name if it is free; else it is its service's, or that with the least free suffix from 2 on. */
  ghost predicate NamedWith(e: Entry, taken: set<string>) {
    if e.tool !in taken then e.visible == e.tool
    else
      var plain := e.service + "_" + e.tool;
      && e.visible !in taken
      && if plain !in taken then e.visible == plain
         else exists suffix :: SearchedTo(plain, suffix, taken) && e.visible == plain + "_" + Decimal(suffix)
  }

  /** Every entry is named with what is reserved and the names before it taken. */
  ghost predicate WellNamed(entries: seq<Entry>, reserved: set<string>) {
    forall i :: 0 <= i < |entries| ==> NamedWith(entries[i], reserved + Names(entries[..i]))
  }

  /** So names are distinct and not reserved. */
  lemma {:induction false} NamesAreDistinct(entries: seq<Entry>, reserved: set<string>)
    requires WellNamed(entries, reserved)
    ensures forall i :: 0 <= i < |entries| ==> entries[i].visible !in reserved
    ensures forall i, j :: 0 <= i < j < |entries| ==> entries[i].visible != entries[j].visible
  {
    forall j | 0 <= j < |entries|
      ensures entries[j].visible !in reserved
      ensures forall i :: 0 <= i < j ==> entries[i].visible != entries[j].visible
    {
      assert NamedWith(entries[j], reserved + Names(entries[..j]));
      forall i | 0 <= i < j
        ensures entries[i].visible in Names(entries[..j])
      {
        assert entries[..j][i] == entries[i];
      }
    }
  }

  lemma {:induction false} OneMoreEntry(entries: seq<Entry>, reserved: set<string>, e: Entry)
    requires WellNamed(entries, reserved) && NamedWith(e, reserved + Names(entries))
    ensures WellNamed(entries + [e], reserved) && Names(entries + [e]) == Names(entries) + {e.visible}
    ensures Sources(entries + [e]) == Sources(entries) + [(e.service, e.tool)]
  {
    var longer := entries + [e];
    assert forall x :: x in longer <==> x in entries || x == e;
    forall i | 0 <= i < |longer|
      ensures NamedWith(longer[i], reserved + Names(longer[..i]))
    {
      assert longer[..i] == entries[..i];
      assert entries[..|entries|] == entries;
    }
  }

  /** Every tool once, in order; names are distinct, not reserved and changed only where they must be. */
  method GetAllTools(services: seq<Service>, reserved: set<string>) returns (entries: seq<Entry>)
    ensures Sources(entries) == AllTools(services)
    ensures WellNamed(entries, reserved)
    ensures forall i :: 0 <= i < |entries| ==> entries[i].visible !in reserved
    ensures forall i, j :: 0 <= i < j < |entries| ==> entries[i].visible != entries[j].visible
  {
    entries := [];
    var names := reserved;
    for s := 0 to |services|
      invariant Sources(entries) == AllTools(services[..s])
      invariant WellNamed(entries, reserved) && names == reserved + Names(entries)
    {
      assert services[..s + 1][..s] == services[..s];
      ghost var before := AllTools(services[..s]);
      entries, names := AddService(services[s], reserved, entries, names, before);
    }
    assert services[..|services|] == services;
    NamesAreDistinct(entries, reserved);
  }

  method AddService(service: Service, reserved: set<string>, entries0: seq<Entry>, names0: set<string>,
                    ghost before: seq<(string, string)>)
    returns (entries: seq<Entry>, names: set<string>)
    requires Sources(entries0) == before && WellNamed(entries0, reserved) && names0 == reserved + Names(entries0)
    ensures Sources(entries) == before + Own(service, |service.tools|)
    ensures WellNamed(entries, reserved) && names == reserved + Names(entries)
  {
    entries, names := entries0, names0;
    assert before + Own(service, 0) == before;
    for t := 0 to |service.tools|
      invariant Sources(entries) == before + Own(service, t)
      invariant WellNamed(entries, reserved) && names == reserved + Names(entries)
    {
      var tool := service.tools[t];
      assert Own(service, t + 1) == Own(service, t) + [(service.name, tool)];
      AppendAssoc(before, Own(service, t), [(service.name, tool)]);
      entries, names := AddTool(service.name, tool, reserved, entries, names);
    }
  }

  method AddTool(service: string, tool: string, reserved: set<string>, entries0: seq<Entry>, names0: set<string>)
    returns (entries: seq<Entry>, names: set<string>)
    requires WellNamed(entries0, reserved) && names0 == reserved + Names(entries0)
    ensures Sources(entries) == Sources(entries0) + [(service, tool)]
    ensures WellNamed(entries, reserved) && names == reserved + Names(entries)
  {
    var visible := tool;
    if tool in names0 {
      visible := AliasToolName(service, tool, names0);
    }
    OneMoreEntry(entries0, reserved, Entry(service, tool, visible));
    entries := entries0 + [Entry(service, tool, visible)];
    names := names0 + {visible};
  }
}
