/**
  The tracker that persists runtime state: every change takes a snapshot, one write runs at a
  time, snapshots taken meanwhile are coalesced (src/runtime/recovery.ts). The file system is a
  list of writes started and not finished; when they land or fail is up to it.
 */
module StateWriter {
  import opened Common

  datatype Compaction = Compaction(count: nat, summarizerFallbacks: nat, consecutiveFallbacks: nat,
                                   oversizedAtomicFallback: bool)

  datatype Agent = Agent(agentType: string, taskId: Option<string>, compaction: Option<Compaction>)

  datatype Snapshot = Snapshot(stage: Option<string>, agents: map<string, Agent>)

  datatype Step =
    | Started(id: string, agentType: string, taskId: Option<string>)
    | Stopped(id: string)
    | Activity(id: string)
    | CompactionUpdate(id: string, counters: Compaction)
    | SetStage(stage: Option<string>)
    | Freeze
    | WriteLands(write: nat)
    | WriteFails(write: nat)

  /** What a step makes of the tracker's state while it is not frozen. */
  ghost function After(s: Snapshot, step: Step): Snapshot {
    match step
    case Started(id, agentType, taskId) => s.(agents := s.agents[id := Agent(agentType, taskId, None)])
    case Stopped(id) => s.(agents := s.agents - {id})
    case CompactionUpdate(id, counters) =>
      if id in s.agents then s.(agents := s.agents[id := s.agents[id].(compaction := Some(counters))]) else s
    case SetStage(stage) => s.(stage := stage)
    case _ => s
  }

  /** The state after some steps: the changes up to the first freeze count. */
  ghost function StateAfter(s: Snapshot, frozen: bool, steps: seq<Step>): Snapshot {
    if steps == [] then s
    else
      var init, last := steps[..|steps| - 1], steps[|steps| - 1];
      var before := StateAfter(s, frozen, init);
      if frozen || Freeze in init then before else After(before, last)
  }

  class RuntimeTracker {
    var agents: map<string, Agent>
    var currentStageId: Option<string>
    var frozen: bool
    var pendingState: Option<Snapshot>
    /** A drain is running. */
    var inFlight: bool

    /** The file system: writes under way and the file's content. */
    var underway: seq<Snapshot>
    var disk: Option<Snapshot>

    /** Every snapshot taken, in order; which are being written and which have landed. */
    ghost var taken: seq<Snapshot>
    ghost var serials: seq<nat>
    ghost var landed: seq<nat>
    ghost var lastFailed: bool
    ghost var landedBeforeFreeze: nat

    constructor (stored: Option<Snapshot>)
      ensures Valid() && !frozen && disk == stored && landed == [] && taken == []
    {
      agents, currentStageId, frozen, pendingState, inFlight := map[], None, false, None, false;
      underway, disk := [], stored;
      taken, serials, landed, lastFailed, landedBeforeFreeze := [], [], [], false, 0;
    }

    ghost function Current(): Snapshot
      reads this
    {
      Snapshot(currentStageId, agents)
    }

    /** The newest snapshot taken has landed last. */
    ghost predicate NewestLanded()
      reads this
    {
      landed != [] && landed[|landed| - 1] + 1 == |taken|
    }

    /** At most one write is under way, and it is of a snapshot taken. */
    ghost predicate OneWriter()
      reads this
    {
      && |serials| == |underway| == (if inFlight then 1 else 0)
      && (inFlight ==> serials[0] < |taken| && underway[0] == taken[serials[0]])
    }

    /** Writes land in the order the snapshots were taken; the file holds the last one. */
    ghost predicate InOrder()
      reads this
    {
      && (forall i, j :: 0 <= i < j < |landed| ==> landed[i] < landed[j])
      && (landed != [] ==> landed[|landed| - 1] < |taken| && disk == Some(taken[landed[|landed| - 1]]))
      && (landed != [] && serials != [] ==> landed[|landed| - 1] < serials[0])
    }

    /** The newest snapshot is pending, being written or landed, unless its write failed. */
    ghost predicate NothingLost()
      reads this
    {
      && (taken != [] ==> taken[|taken| - 1] == Current())
      && (pendingState.Some? ==> taken != [] && pendingState == Some(taken[|taken| - 1]) && !NewestLanded())
      && (pendingState.Some? && serials != [] ==> serials[0] + 1 < |taken|)
      && (pendingState.None? && serials != [] ==> serials[0] + 1 == |taken|)
      && (pendingState.None? && serials == [] && taken != [] ==> lastFailed || NewestLanded())
      && (pendingState.Some? && serials == [] ==> lastFailed || frozen)
      && (lastFailed ==> taken != [] && !NewestLanded())
    }

    ghost predicate Valid()
      reads this
    {
      && OneWriter() && InOrder() && NothingLost()
      && (frozen ==> |landed| + |serials| <= landedBeforeFreeze + 1)
    }

    // ---- writing

    /** A drain takes the pending snapshot and starts to write it. */
    method StartWrite()
      requires pendingState.Some? && underway == [] && serials == [] && taken != []
      modifies this`pendingState, this`inFlight, this`underway, this`serials
      ensures inFlight && pendingState.None? && underway == [old(pendingState).value] && serials == [|taken| - 1]
    {
      underway, serials := [pendingState.value], [|taken| - 1];
      pendingState, inFlight := None, true;
    }

    method Flush()
      requires OneWriter() && InOrder() && !frozen
      requires Pending()
      modifies this`pendingState, this`inFlight, this`underway, this`taken, this`serials
      ensures Valid() && taken == old(taken) + [Current()]
      ensures !old(inFlight) ==> inFlight && underway == [Current()]
    {
      taken := taken + [Snapshot(currentStageId, agents)];
      pendingState := Some(Snapshot(currentStageId, agents));
      if inFlight {
        return;
      }
      StartWrite();
    }

    /** What a change may assume of the bookkeeping before it flushes. */
    ghost predicate Pending()
      reads this
    {
      lastFailed ==> taken != [] && !NewestLanded()
    }

    /** The file now holds what was written. */
    method Finish(write: nat)
      requires Valid() && write < |underway|
      modifies this`disk, this`landed, this`underway, this`serials, this`lastFailed
      ensures underway == [] && serials == [] && !lastFailed && InOrder()
      ensures landed == old(landed) + [old(serials)[write]]
      ensures NewestLanded() <==> pendingState.None?
    {
      disk := Some(underway[write]);
      landed := landed + [serials[write]];
      underway, serials, lastFailed := [], [], false;
    }

    /** A write finishes; the drain goes on with what has become pending, unless frozen. */
    method Land(write: nat)
      requires Valid() && write < |underway|
      modifies this
      ensures Current() == old(Current())
      ensures Valid() && frozen == old(frozen) && taken == old(taken)
      ensures landedBeforeFreeze == old(landedBeforeFreeze)
      ensures landed == old(landed) + [old(serials)[write]] && !lastFailed
      ensures frozen ==> serials == []
    {
      Finish(write);
      if pendingState.Some? && !frozen {
        StartWrite();
      } else {
        inFlight := false;
      }
    }

    /** A write fails: the drain ends and what is pending stays pending. */
    method Fail(write: nat)
      requires Valid() && write < |underway|
      modifies this
      ensures Current() == old(Current())
      ensures Valid() && frozen == old(frozen) && taken == old(taken) && landed == old(landed)
      ensures landedBeforeFreeze == old(landedBeforeFreeze) && disk == old(disk)
      ensures pendingState == old(pendingState) && !inFlight && underway == [] && lastFailed
    {
      underway, serials, lastFailed := [], [], true;
      inFlight := false;
    }

    // ---- changes

    method AgentStarted(id: string, agentType: string, taskId: Option<string>)
      requires Valid()
      modifies this
      ensures Valid() && Changed()
      ensures !frozen ==>
                agents == old(agents)[id := Agent(agentType, taskId, None)] && currentStageId == old(currentStageId)
    {
      if frozen {
        return;
      }
      agents := agents[id := Agent(agentType, taskId, None)];
      Flush();
    }

    method AgentStopped(id: string)
      requires Valid()
      modifies this
      ensures Valid() && Changed()
      ensures !frozen ==> agents == old(agents) - {id} && currentStageId == old(currentStageId)
    {
      if frozen {
        return;
      }
      agents := agents - {id};
      Flush();
    }

    /** Throws for an agent it does not know, changing nothing. */
    method AgentActivity(id: string) returns (known: bool)
      requires Valid()
      modifies this
      ensures Valid() && Changed()
      ensures known <==> frozen || id in old(agents)
      ensures taken == if known && !frozen then old(taken) + [Current()] else old(taken)
      ensures agents == old(agents) && currentStageId == old(currentStageId)
    {
      if frozen {
        return true;
      }
      if id !in agents {
        return false;
      }
      Flush();
      return true;
    }

    method AgentCompactionUpdate(id: string, counters: Compaction) returns (known: bool)
      requires Valid()
      modifies this
      ensures Valid() && Changed()
      ensures known <==> frozen || id in old(agents)
      ensures !known ==> agents == old(agents) && taken == old(taken)
      ensures known && !frozen ==> agents == old(agents)[id := old(agents)[id].(compaction := Some(counters))]
      ensures currentStageId == old(currentStageId)
    {
      if frozen {
        return true;
      }
      if id !in agents {
        return false;
      }
      agents := agents[id := agents[id].(compaction := Some(counters))];
      Flush();
      return true;
    }

    method SetCurrentStage(stage: Option<string>)
      requires Valid()
      modifies this
      ensures Valid() && Changed()
      ensures !frozen ==> currentStageId == stage && agents == old(agents)
    {
      if frozen {
        return;
      }
      currentStageId := stage;
      Flush();
    }

    /** No new snapshot is taken from now on. */
    method FreezeTracker()
      requires Valid()
      modifies this`frozen, this`landedBeforeFreeze
      ensures Valid() && frozen
      ensures landedBeforeFreeze == if old(frozen) then old(landedBeforeFreeze) else |landed|
    {
      if frozen {
        return;
      }
      frozen := true;
      landedBeforeFreeze := |landed|;
    }

    /**
      Bookkeeping a change leaves alone; frozen, it leaves everything alone. A change made while
      nothing is being written is written at once, also after a failed write.
     */
    twostate predicate Changed()
      reads this
    {
      && frozen == old(frozen) && landed == old(landed) && disk == old(disk)
      && landedBeforeFreeze == old(landedBeforeFreeze)
      && old(taken) <= taken
      && (frozen ==> taken == old(taken) && underway == old(underway) && Current() == old(Current()))
      && lastFailed == old(lastFailed)
      && (taken != old(taken) && !old(inFlight) ==> inFlight && underway == [Current()])
    }

    // ---- runs

    /** What any sequence of steps leaves true of what happened before it. */
    twostate predicate Went()
      reads this
    {
      && old(taken) <= taken && old(landed) <= landed
      && (old(frozen) ==> frozen && taken == old(taken) && landedBeforeFreeze == old(landedBeforeFreeze))
      && (old(frozen) ==> |landed| + |serials| <= old(|landed| + |serials|))
    }

    method Do(step: Step)
      requires Valid()
      modifies this
      ensures Valid() && Went()
      ensures lastFailed ==> old(lastFailed) || step.WriteFails?
      ensures frozen == (old(frozen) || step.Freeze?)
      ensures Current() == if old(frozen) then old(Current()) else After(old(Current()), step)
      ensures if step.WriteLands? && step.write < old(|underway|) then
                landed == old(landed) + [old(serials)[step.write]] && !lastFailed
              else landed == old(landed)
      ensures step.WriteFails? && step.write < old(|underway|) ==> underway == [] && lastFailed
    {
      match step
      case Started(id, agentType, taskId) => AgentStarted(id, agentType, taskId);
      case Stopped(id) => AgentStopped(id);
      case Activity(id) => var known := AgentActivity(id);
      case CompactionUpdate(id, counters) => var known := AgentCompactionUpdate(id, counters);
      case SetStage(stage) => SetCurrentStage(stage);
      case Freeze => FreezeTracker();
      case WriteLands(write) =>
        if write < |underway| {
          Land(write);
        }
      case WriteFails(write) =>
        if write < |underway| {
          Fail(write);
        }
    }

    /**
      Every interleaving of changes, writes landing or failing, and freezing. One write at a
      time, in order. Whenever no write is under way and the tracker is not frozen, the file holds
      the newest state exactly if the last write did not fail; without failures, always. After a
      freeze at most one more write lands.
     */
    method Run(steps: seq<Step>)
      requires Valid()
      modifies this
      ensures Valid() && Went()
      ensures |underway| <= 1 && forall i, j :: 0 <= i < j < |landed| ==> landed[i] < landed[j]
      ensures !inFlight && !frozen && taken != [] ==> (NewestLanded() <==> !lastFailed)
      ensures !inFlight && !frozen && taken != [] && !lastFailed ==> disk == Some(Current()) && pendingState.None?
      ensures !old(lastFailed) && (forall s :: s in steps ==> !s.WriteFails?) ==> !lastFailed
      ensures frozen ==> |landed| <= landedBeforeFreeze + 1
      ensures frozen == (old(frozen) || Freeze in steps) && Current() == StateAfter(old(Current()), old(frozen), steps)
    {
      for i := 0 to |steps|
        invariant Valid() && Went()
        invariant frozen == (old(frozen) || Freeze in steps[..i])
        invariant Current() == StateAfter(old(Current()), old(frozen), steps[..i])
        invariant !old(lastFailed) && (forall s :: s in steps ==> !s.WriteFails?) ==> !lastFailed
      {
        assert steps[i] in steps && steps[..i + 1] == steps[..i] + [steps[i]];
        assert steps[..i + 1][..i] == steps[..i];
        Do(steps[i]);
      }
      assert steps[..|steps|] == steps;
    }
  }
}
