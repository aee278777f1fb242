/**
  The plan document: its invariant, the operations of the plan service and the dispatch gate
  (src/mcp/plan-server.ts, src/types.ts, src/server/agent-orchestrator.ts).
 */
module Plan {
  import opened Common

  datatype Stage = Stage(
    id: string,
    objective: string,
    expectedOutcomes: seq<string>,
    acceptanceCriteria: seq<string>,
    startedAt: Option<string>)

  datatype Verdict = Completed | Failed | Escalated | Aborted

  datatype CompletedStage = CompletedStage(
    id: string,
    objective: string,
    expectedOutcomes: seq<string>,
    actualOutcomes: seq<string>,
    startedAt: string,
    completedAt: string,
    verdict: Verdict,
    summary: string)

  datatype Document = Document(
    updatedAt: string,
    currentStageId: Option<string>,
    stages: seq<Stage>,
    history: seq<CompletedStage>)

  datatype Code = PlanNotFound | StageNotFound | StageExists | StageMismatch | ValidationError

  /** `Threw` is a write that failed or a document the schema refused. */
  datatype Result = Done | Refused(code: Code) | Threw

  // --------------------------------------------------------- the invariant

  /** The length of a text in UTF-16 code units, as the schema counts it. */
  function Units(text: string): nat {
    if text == "" then 0
    else Units(text[..|text| - 1]) + if text[|text| - 1] as int >= 0x1_0000 then 2 else 1
  }

  /** One for each character, one more for each beyond the basic plane. */
  lemma {:induction false} UnitsMean(text: string)
    ensures Units(text) == |text| + |set i | 0 <= i < |text| && text[i] as int >= 0x1_0000|
  {
    if text != "" {
      var n := |text| - 1;
      UnitsMean(text[..n]);
      var wide := set i | 0 <= i < |text| && text[i] as int >= 0x1_0000;
      var before := set i | 0 <= i < n && text[..n][i] as int >= 0x1_0000;
      assert wide == before + if text[n] as int >= 0x1_0000 then {n} else {};
    }
  }

  predicate StageFits(s: Stage) {
    s.id != "" && 1 <= Units(s.objective) <= 1000 && s.expectedOutcomes != [] && s.acceptanceCriteria != []
  }

  ghost predicate Active(stages: seq<Stage>, id: string) {
    exists i :: 0 <= i < |stages| && stages[i].id == id
  }

  ghost predicate InHistory(history: seq<CompletedStage>, id: string) {
    exists i :: 0 <= i < |history| && history[i].id == id
  }

  ghost predicate UniqueStages(stages: seq<Stage>) {
    forall i, j :: 0 <= i < j < |stages| ==> stages[i].id != stages[j].id
  }

  ghost predicate UniqueHistory(history: seq<CompletedStage>) {
    forall i, j :: 0 <= i < j < |history| ==> history[i].id != history[j].id
  }

  /** Every id is active once or finished once, never both; the current stage is active. */
  ghost predicate Sound(doc: Document) {
    && (forall s :: s in doc.stages ==>
          && s.id != "" && 1 <= Units(s.objective) <= 1000
          && s.expectedOutcomes != [] && s.acceptanceCriteria != [])
    && UniqueStages(doc.stages) && UniqueHistory(doc.history)
    && (forall id :: Active(doc.stages, id) ==> !InHistory(doc.history, id))
    && (doc.currentStageId.Some? ==> Active(doc.stages, doc.currentStageId.value))
  }

  predicate IsStarted(s: Stage) {
    s.startedAt.Some? && s.startedAt.value != ""
  }

  ghost predicate CurrentIsStarted(doc: Document) {
    forall i :: 0 <= i < |doc.stages| && Some(doc.stages[i].id) == doc.currentStageId ==>
              doc.stages[i].startedAt.Some? && doc.stages[i].startedAt.value != ""
  }

  /** The schema's check accepts exactly the sound documents. */
  method SchemaAccepts(doc: Document) returns (ok: bool)
    ensures ok <==> Sound(doc)
  {
    var fits := forall s :: s in doc.stages ==> StageFits(s);
    ok := fits;
    var activeIds: set<string> := {};
    for i := 0 to |doc.stages|
      invariant forall id :: id in activeIds <==> Active(doc.stages[..i], id)
      invariant ok <==> fits && UniqueStages(doc.stages[..i])
    {
      OneMoreStage(doc.stages, i);
      if doc.stages[i].id in activeIds {
        ok := false;
      }
      activeIds := activeIds + {doc.stages[i].id};
    }
    assert doc.stages[..|doc.stages|] == doc.stages;
    var historyIds: set<string> := {};
    ghost var stagesOk := ok;
    for i := 0 to |doc.history|
      invariant forall id :: id in historyIds <==> InHistory(doc.history[..i], id)
      invariant ok <==> stagesOk && UniqueHistory(doc.history[..i]) && activeIds !! historyIds
    {
      OneMoreFinished(doc.history, i);
      if doc.history[i].id in historyIds {
        ok := false;
      }
      historyIds := historyIds + {doc.history[i].id};
      if doc.history[i].id in activeIds {
        ok := false;
      }
    }
    assert doc.history[..|doc.history|] == doc.history;
    if doc.currentStageId.Some? && doc.currentStageId.value !in activeIds {
      ok := false;
    }
  }

  lemma {:induction false} OneMoreStage(stages: seq<Stage>, i: nat)
    requires i < |stages|
    ensures forall id :: Active(stages[..i + 1], id) <==> Active(stages[..i], id) || id == stages[i].id
    ensures UniqueStages(stages[..i + 1]) <==> UniqueStages(stages[..i]) && !Active(stages[..i], stages[i].id)
  {
    var short, long := stages[..i], stages[..i + 1];
    assert long[i] == stages[i] && forall k :: 0 <= k < i ==> long[k] == short[k];
    forall id
      ensures Active(long, id) <==> Active(short, id) || id == stages[i].id
    {
      if Active(long, id) && id != stages[i].id {
        var k :| 0 <= k < |long| && long[k].id == id;
        assert short[k].id == id;
      }
    }
  }

  lemma {:induction false} OneMoreFinished(history: seq<CompletedStage>, i: nat)
    requires i < |history|
    ensures forall id :: InHistory(history[..i + 1], id) <==> InHistory(history[..i], id) || id == history[i].id
    ensures UniqueHistory(history[..i + 1]) <==> UniqueHistory(history[..i]) && !InHistory(history[..i], history[i].id)
  {
    var short, long := history[..i], history[..i + 1];
    assert long[i] == history[i] && forall k :: 0 <= k < i ==> long[k] == short[k];
    forall id
      ensures InHistory(long, id) <==> InHistory(short, id) || id == history[i].id
    {
      if InHistory(long, id) && id != history[i].id {
        var k :| 0 <= k < |long| && long[k].id == id;
        assert short[k].id == id;
      }
    }
  }

  // ------------------------------------------------------- small functions

  /** Where a stage is, when it is active. */
  method FindStage(stages: seq<Stage>, id: string) returns (at: Option<nat>)
    ensures at.Some? <==> Active(stages, id)
    ensures at.Some? ==> at.value < |stages| && stages[at.value].id == id
  {
    for i := 0 to |stages|
      invariant forall k :: 0 <= k < i ==> stages[k].id != id
    {
      if stages[i].id == id {
        return Some(i);
      }
    }
    return None;
  }

  method FindFinished(history: seq<CompletedStage>, id: string) returns (found: bool)
    ensures found <==> InHistory(history, id)
  {
    for i := 0 to |history|
      invariant forall k :: 0 <= k < i ==> history[k].id != id
    {
      if history[i].id == id {
        return true;
      }
    }
    return false;
  }

  function StampStarted(s: Stage, now: string): Stage {
    if IsStarted(s) then s else s.(startedAt := Some(now))
  }

  /** The start an incoming stage inherits: its own if given, else that of the stage it replaces. */
  ghost predicate Inherits(incoming: Stage, existing: seq<Stage>, merged: Stage) {
    && merged == incoming.(startedAt := merged.startedAt)
    && (incoming.startedAt.Some? ==> merged == incoming)
    && (incoming.startedAt.None? ==>
          forall i :: 0 <= i < |existing| && existing[i].id == incoming.id ==>
            merged.startedAt == if existing[i].startedAt == Some("") then None else existing[i].startedAt)
    && (incoming.startedAt.None? && !Active(existing, incoming.id) ==> merged == incoming)
  }

  ghost predicate Merged(incoming: seq<Stage>, existing: seq<Stage>, merged: seq<Stage>) {
    && |merged| == |incoming|
    && forall k :: 0 <= k < |incoming| ==> Inherits(incoming[k], existing, merged[k])
  }

  method PreserveStartedAt(incoming: seq<Stage>, existing: seq<Stage>) returns (merged: seq<Stage>)
    requires UniqueStages(existing)
    ensures Merged(incoming, existing, merged)
  {
    merged := [];
    for k := 0 to |incoming|
      invariant |merged| == k
      invariant forall m :: 0 <= m < k ==> Inherits(incoming[m], existing, merged[m])
    {
      var stage := incoming[k];
      if stage.startedAt.None? {
        var prev := FindStage(existing, stage.id);
        if prev.Some? && IsStarted(existing[prev.value]) {
          stage := stage.(startedAt := existing[prev.value].startedAt);
        }
      }
      merged := merged + [stage];
    }
  }

  // ---------------------------------------------------------- what edits keep

  function Removed(stages: seq<Stage>, i: nat): seq<Stage>
    requires i < |stages|
  {
    stages[..i] + stages[i + 1..]
  }

  function Cleared(current: Option<string>, id: string): Option<string> {
    if current == Some(id) then None else current
  }

  lemma {:induction false} RemovedFacts(stages: seq<Stage>, i: nat)
    requires i < |stages| && UniqueStages(stages)
    ensures UniqueStages(Removed(stages, i))
    ensures forall id :: Active(Removed(stages, i), id) <==> Active(stages, id) && id != stages[i].id
    ensures forall s :: s in Removed(stages, i) ==> s in stages
  {
    var rest := Removed(stages, i);
    assert forall k :: 0 <= k < |rest| ==> rest[k] == stages[if k < i then k else k + 1];
    forall id
      ensures Active(rest, id) <==> Active(stages, id) && id != stages[i].id
    {
      if Active(stages, id) && id != stages[i].id {
        var k :| 0 <= k < |stages| && stages[k].id == id;
        assert rest[if k < i then k else k - 1].id == id;
      }
    }
  }

  lemma {:induction false} RemovedKeepsSound(doc: Document, i: nat, now: string)
    requires Sound(doc) && i < |doc.stages|
    ensures var next := doc.(updatedAt := now, stages := Removed(doc.stages, i),
                             currentStageId := Cleared(doc.currentStageId, doc.stages[i].id));
            Sound(next) && (CurrentIsStarted(doc) ==> CurrentIsStarted(next))
  {
    RemovedFacts(doc.stages, i);
    var rest := Removed(doc.stages, i);
    assert forall k :: 0 <= k < |rest| ==> rest[k] == doc.stages[if k < i then k else k + 1];
  }

  lemma {:induction false} AppendedKeepsSound(doc: Document, s: Stage, now: string)
    requires Sound(doc) && StageFits(s) && !Active(doc.stages, s.id) && !InHistory(doc.history, s.id)
    ensures Sound(doc.(updatedAt := now, stages := doc.stages + [s]))
    ensures CurrentIsStarted(doc) ==> CurrentIsStarted(doc.(updatedAt := now, stages := doc.stages + [s]))
  {
    var longer := doc.stages + [s];
    assert longer[..|doc.stages|] == doc.stages && longer[..|longer|] == longer;
    OneMoreStage(longer, |doc.stages|);
  }

  lemma {:induction false} FinishedKeepsSound(doc: Document, c: CompletedStage, now: string)
    requires Sound(doc) && !Active(doc.stages, c.id) && !InHistory(doc.history, c.id)
    ensures Sound(doc.(updatedAt := now, history := doc.history + [c]))
  {
    var longer := doc.history + [c];
    assert longer[..|doc.history|] == doc.history && longer[..|longer|] == longer;
    OneMoreFinished(longer, |doc.history|);
  }

  /** Restamping a stage changes no id. */
  lemma {:induction false} RestampedKeepsSound(doc: Document, i: nat, startedAt: string, now: string)
    requires Sound(doc.(currentStageId := None)) && i < |doc.stages|
    ensures var next := doc.(updatedAt := now,
                             stages := doc.stages[i := doc.stages[i].(startedAt := Some(startedAt))],
                             currentStageId := Some(doc.stages[i].id));
            Sound(next) && (startedAt != "" ==> CurrentIsStarted(next))
  {
    var stages := doc.stages;
    var next := stages[i := stages[i].(startedAt := Some(startedAt))];
    assert forall k :: 0 <= k < |stages| ==> next[k].id == stages[k].id;
    forall id
      ensures Active(next, id) <==> Active(stages, id)
    {
    }
    assert Active(next, next[i].id);
    assert forall s :: s in next ==> s in stages || s == stages[i].(startedAt := Some(startedAt));
    assert stages[i] in stages;
  }

  // ---------------------------------------------------------- set_stages

  /** What replacing the stages yields, entry by entry. */
  ghost predicate Replaced(incoming: seq<Stage>, existing: seq<Stage>, current: Option<string>, now: string,
                           next: seq<Stage>) {
    && |next| == |incoming|
    && forall k :: 0 <= k < |next| ==> ReplacedOne(incoming[k], existing, current, now, next[k])
  }

  ghost predicate ReplacedOne(incoming: Stage, existing: seq<Stage>, current: Option<string>, now: string,
                              next: Stage) {
    exists merged :: Inherits(incoming, existing, merged)
        && next == if Some(incoming.id) == current && (merged.startedAt.None? || merged.startedAt.value == "")
                   then merged.(startedAt := Some(now)) else merged
  }

  /** Everything but start times is as handed in. */
  ghost predicate SameButStarts(incoming: seq<Stage>, next: seq<Stage>) {
    && |next| == |incoming|
    && forall k :: 0 <= k < |next| ==> next[k] == incoming[k].(startedAt := next[k].startedAt)
  }

  lemma {:induction false} SameButStartsFacts(incoming: seq<Stage>, next: seq<Stage>)
    requires SameButStarts(incoming, next)
    ensures UniqueStages(next) <==> UniqueStages(incoming)
    ensures forall id :: Active(next, id) <==> Active(incoming, id)
    ensures (forall s :: s in incoming ==> StageFits(s)) ==> forall s :: s in next ==> StageFits(s)
  {
    forall id
      ensures Active(next, id) <==> Active(incoming, id)
    {
      if Active(next, id) {
        var k :| 0 <= k < |next| && next[k].id == id;
        assert incoming[k].id == id;
      }
      if Active(incoming, id) {
        var k :| 0 <= k < |incoming| && incoming[k].id == id;
        assert next[k].id == id;
      }
    }
    forall s | s in next && forall x :: x in incoming ==> StageFits(x)
      ensures StageFits(s)
    {
      var k :| 0 <= k < |next| && next[k] == s;
      assert incoming[k] in incoming;
    }
  }

  /**
    A stage that had started keeps its start exactly when it is handed in without one or with the
    same one, or blank as the current stage in the very instant of its old start. Handed in with
    any other start, the blank one included, it loses the old one.
   */
  lemma {:induction false} StartsSurvive(incoming: seq<Stage>, existing: seq<Stage>, current: Option<string>,
                                         now: string, next: seq<Stage>, i: nat, k: nat)
    requires Replaced(incoming, existing, current, now, next)
    requires i < |existing| && k < |incoming| && existing[i].id == incoming[k].id
    requires existing[i].startedAt.Some? && existing[i].startedAt.value != ""
    ensures var was, given := existing[i].startedAt, incoming[k].startedAt;
            next[k].startedAt == was <==>
              given.None? || given == was || (given == Some("") && Some(incoming[k].id) == current && was == Some(now))
  {
    assert ReplacedOne(incoming[k], existing, current, now, next[k]);
  }

  /** The new document is accepted exactly when ids are unique and none is finished. */
  lemma {:induction false} ReplacedIsSoundIff(doc: Document, incoming: seq<Stage>, current: Option<string>,
                                              now: string, next: seq<Stage>)
    requires Sound(doc) && SameButStarts(incoming, next)
    requires forall s :: s in incoming ==> StageFits(s)
    requires current.Some? ==> Active(incoming, current.value)
    ensures Sound(Document(now, current, next, doc.history)) <==>
              UniqueStages(incoming) && forall id :: Active(incoming, id) ==> !InHistory(doc.history, id)
  {
    SameButStartsFacts(incoming, next);
  }

  lemma {:induction false} ReplacedIsStarted(doc: Document, incoming: seq<Stage>, current: Option<string>,
                                             now: string, next: seq<Stage>)
    requires Replaced(incoming, doc.stages, current, now, next) && now != ""
    ensures CurrentIsStarted(Document(now, current, next, doc.history))
  {
    forall k | 0 <= k < |next| && Some(next[k].id) == current
      ensures next[k].startedAt.Some? && next[k].startedAt.value != ""
    {
      assert ReplacedOne(incoming[k], doc.stages, current, now, next[k]);
    }
  }

  // ------------------------------------------------------------ the service

  datatype Op =
    | Init(stages: seq<Stage>)
    | SetStages(stages: seq<Stage>, chosen: Option<string>)
    | AddStage(stage: Stage)
    | RemoveStage(id: string)
    | SetCurrent(chosen: Option<string>)
    | CompleteStage(args: Completion)
    | AppendHistory(finished: CompletedStage, fits: bool)

  datatype Completion = Completion(id: string, verdict: Verdict, summary: string, actualOutcomes: seq<string>,
                                   fits: bool)

  /** One call: the clock, and whether the file system takes the write. */
  datatype Call = Call(op: Op, now: string, io: bool)

  function Finish(s: Stage, args: Completion, startedAt: string, now: string): CompletedStage {
    CompletedStage(s.id, s.objective, s.expectedOutcomes, args.actualOutcomes, startedAt, now, args.verdict,
                   args.summary)
  }

  class PlanService {
    var doc: Option<Document>
    var disk: Option<Document>

    /** A project without a plan file. */
    constructor ()
      ensures Valid() && Started() && doc == None
    {
      doc, disk := None, None;
    }

    /** A plan file read at start-up. */
    constructor Load(stored: Document)
      requires Sound(stored)
      ensures Valid() && doc == Some(stored)
    {
      doc, disk := Some(stored), Some(stored);
    }

    ghost predicate Valid()
      reads this
    {
      doc == disk && (doc.Some? ==> Sound(doc.value))
    }

    ghost predicate Started()
      reads this
    {
      doc.Some? ==> CurrentIsStarted(doc.value)
    }

    /** The history only grows at its end. */
    twostate predicate HistoryGrows()
      reads this
    {
      old(doc).Some? ==> doc.Some? && old(doc).value.history <= doc.value.history
    }

    method WriteDoc(next: Document, io: bool) returns (ok: bool)
      requires Valid()
      modifies this
      ensures ok <==> Sound(next) && io
      ensures doc == disk == if ok then Some(next) else old(doc)
    {
      ok := SchemaAccepts(next);
      if ok && io {
        disk := Some(next);
        doc := Some(next);
      } else {
        ok := false;
      }
    }

    method PlanInit(stages: seq<Stage>, now: string, io: bool) returns (result: Result)
      requires Valid()
      modifies this
      ensures Valid() && (old(Started()) ==> Started()) && HistoryGrows()
      ensures result == if old(doc).Some? then Refused(StageExists)
                        else if !(forall s :: s in stages ==> StageFits(s)) then Refused(ValidationError)
                        else if !UniqueStages(stages) || !io then Threw
                        else Done
      ensures doc == if result.Done? then Some(Document(now, None, stages, [])) else old(doc)
    {
      if doc.Some? {
        return Refused(StageExists);
      }
      if !(forall s :: s in stages ==> StageFits(s)) {
        return Refused(ValidationError);
      }
      var ok := WriteDoc(Document(now, None, stages, []), io);
      return if ok then Done else Threw;
    }

    method PlanSetStages(stages: seq<Stage>, current: Option<string>, now: string, io: bool) returns (result: Result)
      requires Valid() && now != ""
      modifies this
      ensures Valid() && (old(Started()) ==> Started()) && HistoryGrows()
      ensures result == if old(doc).None? then Refused(PlanNotFound)
                        else if !(forall s :: s in stages ==> StageFits(s)) then Refused(ValidationError)
                        else if current.Some? && !Active(stages, current.value) then Refused(StageNotFound)
                        else if UniqueStages(stages) && io
                                && (forall id :: Active(stages, id) ==> !InHistory(old(doc).value.history, id))
                             then Done
                        else Refused(ValidationError)
      ensures result.Done? ==>
                && doc.value.updatedAt == now && doc.value.currentStageId == current
                && doc.value.history == old(doc).value.history
                && Replaced(stages, old(doc).value.stages, current, now, doc.value.stages)
      ensures !result.Done? ==> doc == old(doc)
    {
      if doc.None? {
        return Refused(PlanNotFound);
      }
      if !(forall s :: s in stages ==> StageFits(s)) {
        return Refused(ValidationError);
      }
      if current.Some? {
        var found := FindStage(stages, current.value);
        if found.None? {
          return Refused(StageNotFound);
        }
      }
      var next := Merge(stages, doc.value.stages, current, now);
      ReplacedIsSoundIff(doc.value, stages, current, now, next);
      if UniqueStages(stages) {
        ReplacedIsStarted(doc.value, stages, current, now, next);
      }
      var ok := WriteDoc(Document(now, current, next, doc.value.history), io);
      return if ok then Done else Refused(ValidationError);
    }

    method PlanAddStage(stage: Stage, now: string, io: bool) returns (result: Result)
      requires Valid()
      modifies this
      ensures Valid() && (old(Started()) ==> Started()) && HistoryGrows()
      ensures result == if old(doc).None? then Refused(PlanNotFound)
                        else if Active(old(doc).value.stages, stage.id)
                                || InHistory(old(doc).value.history, stage.id)
                             then Refused(StageExists)
                        else if !StageFits(stage) then Refused(ValidationError)
                        else if io then Done else Threw
      ensures doc == if result.Done?
                     then Some(old(doc).value.(updatedAt := now, stages := old(doc).value.stages + [stage]))
                     else old(doc)
    {
      if doc.None? {
        return Refused(PlanNotFound);
      }
      var active := FindStage(doc.value.stages, stage.id);
      var finished := FindFinished(doc.value.history, stage.id);
      if active.Some? || finished {
        return Refused(StageExists);
      }
      if !StageFits(stage) {
        return Refused(ValidationError);
      }
      AppendedKeepsSound(doc.value, stage, now);
      var ok := WriteDoc(doc.value.(updatedAt := now, stages := doc.value.stages + [stage]), io);
      return if ok then Done else Threw;
    }

    method PlanRemoveStage(id: string, now: string, io: bool) returns (result: Result)
      requires Valid()
      modifies this
      ensures Valid() && (old(Started()) ==> Started()) && HistoryGrows()
      ensures result == if old(doc).None? then Refused(PlanNotFound)
                        else if !Active(old(doc).value.stages, id) then Refused(StageNotFound)
                        else if io then Done else Threw
      ensures result.Done? ==> exists i ::
                && 0 <= i < |old(doc).value.stages| && old(doc).value.stages[i].id == id
                && var was := old(doc).value;
                   doc == Some(Document(now, if was.currentStageId == Some(id) then None else was.currentStageId,
                                        was.stages[..i] + was.stages[i + 1..], was.history))
      ensures !result.Done? ==> doc == old(doc)
    {
      if doc.None? {
        return Refused(PlanNotFound);
      }
      var at := FindStage(doc.value.stages, id);
      if at.None? {
        return Refused(StageNotFound);
      }
      RemovedKeepsSound(doc.value, at.value, now);
      var next := doc.value.(updatedAt := now, stages := Removed(doc.value.stages, at.value),
                             currentStageId := Cleared(doc.value.currentStageId, id));
      var ok := WriteDoc(next, io);
      return if ok then Done else Threw;
    }

    method PlanSetCurrent(id: Option<string>, now: string, io: bool) returns (result: Result)
      requires Valid() && now != ""
      modifies this
      ensures Valid() && (result.Done? || old(Started()) ==> Started()) && HistoryGrows()
      ensures result == if old(doc).None? then Refused(PlanNotFound)
                        else if id.Some? && !Active(old(doc).value.stages, id.value) then Refused(StageNotFound)
                        else if io then Done else Threw
      ensures result.Done? && id.None? ==> doc == Some(old(doc).value.(updatedAt := now, currentStageId := None))
      ensures result.Done? && id.Some? ==> exists i ::
                && 0 <= i < |old(doc).value.stages| && old(doc).value.stages[i].id == id.value
                && var stages := old(doc).value.stages;
                   doc == Some(old(doc).value.(updatedAt := now,
                                               stages := stages[i := stages[i].(startedAt := Some(
                                                 if stages[i].startedAt in {None, Some("")} then now
                                                 else stages[i].startedAt.value))],
                                               currentStageId := id))
      ensures !result.Done? ==> doc == old(doc)
    {
      if doc.None? {
        return Refused(PlanNotFound);
      }
      var next := doc.value.(updatedAt := now, currentStageId := id);
      if id.Some? {
        var at := FindStage(next.stages, id.value);
        if at.None? {
          return Refused(StageNotFound);
        }
        var stamped := StampStarted(next.stages[at.value], now);
        RestampedKeepsSound(doc.value, at.value, stamped.startedAt.value, now);
        next := next.(stages := next.stages[at.value := stamped]);
      }
      var ok := WriteDoc(next, io);
      return if ok then Done else Threw;
    }

    /** Moves a started stage to the end of the history. */
    method PlanCompleteStage(args: Completion, now: string, io: bool) returns (result: Result)
      requires Valid()
      modifies this
      ensures Valid() && (old(Started()) ==> Started()) && HistoryGrows()
      ensures result == if old(doc).None? then Refused(PlanNotFound)
                        else if !Active(old(doc).value.stages, args.id) then Refused(StageNotFound)
                        else if !ActiveAndStarted(old(doc).value.stages, args.id) || !args.fits
                             then Refused(ValidationError)
                        else if io then Done else Threw
      ensures result.Done? ==> exists i ::
                && 0 <= i < |old(doc).value.stages| && old(doc).value.stages[i].id == args.id
                && var was := old(doc).value;
                   var stage := was.stages[i];
                   && stage.startedAt.Some? && stage.startedAt.value != ""
                   && doc == Some(Document(now,
                                           if was.currentStageId == Some(args.id) then None else was.currentStageId,
                                           was.stages[..i] + was.stages[i + 1..],
                                           was.history + [CompletedStage(stage.id, stage.objective,
                                             stage.expectedOutcomes, args.actualOutcomes, stage.startedAt.value, now,
                                             args.verdict, args.summary)]))
      ensures !result.Done? ==> doc == old(doc)
    {
      if doc.None? {
        return Refused(PlanNotFound);
      }
      var at := FindStage(doc.value.stages, args.id);
      if at.None? {
        return Refused(StageNotFound);
      }
      var stage := doc.value.stages[at.value];
      if !IsStarted(stage) {
        return Refused(ValidationError);
      }
      var finished := Finish(stage, args, stage.startedAt.value, now);
      if !args.fits {
        return Refused(ValidationError);
      }
      RemovedKeepsSound(doc.value, at.value, now);
      RemovedFacts(doc.value.stages, at.value);
      var next := doc.value.(updatedAt := now, stages := Removed(doc.value.stages, at.value),
                             currentStageId := Cleared(doc.value.currentStageId, args.id));
      FinishedKeepsSound(next, finished, now);
      var ok := WriteDoc(next.(history := next.history + [finished]), io);
      return if ok then Done else Threw;
    }

    /** For the offline backfill only. */
    method PlanAppendHistory(finished: CompletedStage, fits: bool, now: string, io: bool) returns (result: Result)
      requires Valid()
      modifies this
      ensures Valid() && (old(Started()) ==> Started()) && HistoryGrows()
      ensures result == if old(doc).None? then Refused(PlanNotFound)
                        else if !fits then Refused(ValidationError)
                        else if Active(old(doc).value.stages, finished.id)
                                || InHistory(old(doc).value.history, finished.id)
                             then Refused(StageExists)
                        else if io then Done else Threw
      ensures doc == if result.Done?
                     then Some(old(doc).value.(updatedAt := now, history := old(doc).value.history + [finished]))
                     else old(doc)
    {
      if doc.None? {
        return Refused(PlanNotFound);
      }
      if !fits {
        return Refused(ValidationError);
      }
      var active := FindStage(doc.value.stages, finished.id);
      if active.Some? {
        return Refused(StageExists);
      }
      var known := FindFinished(doc.value.history, finished.id);
      if known {
        return Refused(StageExists);
      }
      FinishedKeepsSound(doc.value, finished, now);
      var ok := WriteDoc(doc.value.(updatedAt := now, history := doc.value.history + [finished]), io);
      return if ok then Done else Threw;
    }

    /** A dispatch is let through exactly for the non-blank current stage. */
    method AssertStageDispatchable(id: Option<string>, isBlank: string -> bool) returns (failure: Option<Code>)
      requires Valid()
      ensures failure.None? <==>
                id.Some? && id.value != "" && !isBlank(id.value) && doc.Some? && doc.value.currentStageId == id
      ensures failure == Some(ValidationError) <==> id.None? || id.value == "" || isBlank(id.value)
      ensures failure == Some(StageNotFound) ==>
                doc.Some? && !Active(doc.value.stages, id.value) && !InHistory(doc.value.history, id.value)
      ensures failure == Some(StageMismatch) ==>
                doc.Some? && (Active(doc.value.stages, id.value) || InHistory(doc.value.history, id.value))
    {
      if id.None? || id.value == "" || isBlank(id.value) {
        return Some(ValidationError);
      }
      if doc.None? {
        return Some(PlanNotFound);
      }
      var active := FindStage(doc.value.stages, id.value);
      if active.None? {
        var finished := FindFinished(doc.value.history, id.value);
        return Some(if finished then StageMismatch else StageNotFound);
      }
      return if doc.value.currentStageId != id then Some(StageMismatch) else None;
    }

    method Do(call: Call) returns (result: Result)
      requires Valid() && call.now != ""
      modifies this
      ensures Valid() && (old(Started()) ==> Started()) && HistoryGrows()
      ensures !result.Done? ==> doc == old(doc)
    {
      match call.op
      case Init(stages) => result := PlanInit(stages, call.now, call.io);
      case SetStages(stages, current) => result := PlanSetStages(stages, current, call.now, call.io);
      case AddStage(stage) => result := PlanAddStage(stage, call.now, call.io);
      case RemoveStage(id) => result := PlanRemoveStage(id, call.now, call.io);
      case SetCurrent(id) => result := PlanSetCurrent(id, call.now, call.io);
      case CompleteStage(args) => result := PlanCompleteStage(args, call.now, call.io);
      case AppendHistory(finished, fits) => result := PlanAppendHistory(finished, fits, call.now, call.io);
    }

    /**
      Every run keeps the document sound, the file equal to it and the current stage started;
      the history only grows at its end, and what is in it is never active again.
     */
    method Run(calls: seq<Call>)
      requires Valid() && forall c :: c in calls ==> c.now != ""
      modifies this
      ensures Valid() && (old(Started()) ==> Started()) && HistoryGrows()
      ensures old(doc).Some? ==> forall id :: InHistory(old(doc).value.history, id) ==>
                InHistory(doc.value.history, id) && !Active(doc.value.stages, id)
    {
      for i := 0 to |calls|
        invariant Valid() && (old(Started()) ==> Started()) && HistoryGrows()
      {
        assert calls[i] in calls;
        var result := Do(calls[i]);
      }
      if doc.Some? && old(doc).Some? {
        forall id | InHistory(old(doc).value.history, id)
          ensures InHistory(doc.value.history, id)
        {
          var k :| 0 <= k < |old(doc).value.history| && old(doc).value.history[k].id == id;
          assert doc.value.history[k] == old(doc).value.history[k];
        }
      }
    }

    /** So completing the current stage is never refused for want of a start. */
    lemma {:induction false} CurrentStageCanComplete()
      requires Valid() && Started() && doc.Some? && doc.value.currentStageId.Some?
      ensures ActiveAndStarted(doc.value.stages, doc.value.currentStageId.value)
    {
      var i :| 0 <= i < |doc.value.stages| && doc.value.stages[i].id == doc.value.currentStageId.value;
      assert doc.value.stages[i].startedAt.Some?;
    }
  }

  ghost predicate ActiveAndStarted(stages: seq<Stage>, id: string) {
    exists i :: 0 <= i < |stages| && stages[i].id == id && stages[i].startedAt.Some? && stages[i].startedAt.value != ""
  }

  method Merge(stages: seq<Stage>, existing: seq<Stage>, current: Option<string>, now: string)
    returns (next: seq<Stage>)
    requires UniqueStages(existing)
    ensures SameButStarts(stages, next)
    ensures UniqueStages(stages) ==> Replaced(stages, existing, current, now, next)
  {
    var merged := PreserveStartedAt(stages, existing);
    assert forall k :: 0 <= k < |stages| ==> Inherits(stages[k], existing, merged[k]);
    next := merged;
    if current.Some? {
      var at := FindStage(merged, current.value);
      if at.Some? {
        next := merged[at.value := StampStarted(merged[at.value], now)];
      }
    }
    if UniqueStages(stages) {
      SameButStartsFacts(stages, merged);
      forall k | 0 <= k < |next|
        ensures ReplacedOne(stages[k], existing, current, now, next[k])
      {
        assert next[k] == if Some(stages[k].id) == current then StampStarted(merged[k], now) else merged[k];
      }
    }
  }
}
