/**
  The message list of one agent with its parallel bookkeeping arrays and running token
  count (src/agents/conversation-state.ts).
 */
module Conversation {
  import opened Common
  import opened Rounds

  datatype RoundId = OfCall(n: nat) | OfMessage(index: nat) | OfCompaction(n: nat)

  /** Cost of the messages pushed one at a time on top of an already counted base. */
  ghost function PushedCost(count: seq<Message> -> int, pushed: seq<Message>): int {
    if pushed == [] then 0
    else PushedCost(count, pushed[..|pushed| - 1]) + count([pushed[|pushed| - 1]])
  }

  class ConversationState {
    const count: seq<Message> -> int

    var messages: seq<Message>
    var timestamps: seq<nat>
    var roundIds: seq<Option<RoundId>>
    var roundCounter: nat
    var compactionCounter: nat
    var currentRound: Option<RoundId>
    var pendingRound: Option<RoundId>
    var inputTokens: int
    var pendingRepairPrompt: Option<string>

    /** How many of the messages the last replacement brought in. */
    ghost var base: nat

    constructor (count: seq<Message> -> int)
      requires forall ms :: count(ms) >= 0
      ensures Valid() && messages == [] && inputTokens == 0 && pendingRepairPrompt == None
      ensures this.count == count
    {
      this.count := count;
      messages, timestamps, roundIds := [], [], [];
      roundCounter, compactionCounter := 0, 0;
      currentRound, pendingRound, pendingRepairPrompt := None, None, None;
      inputTokens, base := 0, 0;
    }

    /** What the messages cost: the replaced base counted at once, every later one by itself. */
    ghost function TrueCost(): int
      requires base <= |messages|
      reads this
    {
      (if base == 0 then 0 else count(messages[..base])) + PushedCost(count, messages[base..])
    }

    ghost predicate Valid()
      reads this
    {
      && (forall ms :: count(ms) >= 0)
      && |timestamps| == |messages| == |roundIds|
      && (forall i :: 0 <= i < |messages| && messages[i].role.Assistant? ==> roundIds[i].Some?)
      && base <= |messages|
      && inputTokens >= TrueCost() >= 0
    }

    method StartRound() returns (id: RoundId)
      requires Valid()
      modifies this`roundCounter, this`pendingRound
      ensures Valid()
      ensures id == OfCall(roundCounter) && roundCounter == old(roundCounter) + 1 && pendingRound == Some(id)
    {
      roundCounter := roundCounter + 1;
      id := OfCall(roundCounter);
      pendingRound := Some(id);
    }

    method ClearPendingRound()
      requires Valid()
      modifies this`pendingRound
      ensures Valid() && pendingRound == None
    {
      pendingRound := None;
    }

    method RestorePendingRound(id: RoundId)
      requires Valid()
      modifies this`pendingRound
      ensures Valid() && pendingRound == Some(id)
    {
      pendingRound := Some(id);
    }

    /** A provider report more than a tenth above the estimate replaces it, any other changes nothing. */
    method RecordReportedInputTokens(reported: Option<int>, staticInputTokens: nat)
      requires Valid()
      modifies this`inputTokens
      ensures Valid()
      ensures inputTokens >= old(inputTokens)
      ensures inputTokens ==
                if reported.Some? && reported.value as real > (old(inputTokens) + staticInputTokens) as real * 1.1
                then reported.value - staticInputTokens else old(inputTokens)
    {
      var estimated := inputTokens + staticInputTokens;
      if reported.Some? && reported.value as real > estimated as real * 1.1 {
        assert reported.value as real > estimated as real;
        var net := reported.value - staticInputTokens;
        inputTokens := if net > 0 then net else 0;
      }
    }

    method PushMessage(message: Message, timestamp: nat)
      requires Valid()
      modifies this`messages, this`inputTokens, this`timestamps, this`roundIds, this`currentRound, this`pendingRound
      ensures Valid()
      ensures messages == old(messages) + [message]
      ensures timestamps == old(timestamps) + [timestamp]
      ensures inputTokens == old(inputTokens) + count([message])
      ensures |roundIds| == old(|roundIds|) + 1 && roundIds[..old(|roundIds|)] == old(roundIds)
      ensures message.role.Assistant? && old(pendingRound).Some? ==>
                roundIds[old(|roundIds|)] == old(pendingRound) && pendingRound == None
      ensures message.role.Assistant? && old(pendingRound).None? ==>
                roundIds[old(|roundIds|)] ==
                  (if old(currentRound).Some? then old(currentRound) else Some(OfMessage(old(|messages|)))) &&
                pendingRound == None
      ensures !message.role.Assistant? ==> roundIds[old(|roundIds|)] == None && pendingRound == old(pendingRound)
      ensures currentRound == if message.role.Assistant? then roundIds[old(|roundIds|)] else old(currentRound)
    {
      messages := messages + [message];
      inputTokens := inputTokens + count([message]);
      timestamps := timestamps + [timestamp];
      if message.role.Assistant? {
        var id := if pendingRound.Some? then pendingRound
                  else if currentRound.Some? then currentRound
                  else Some(OfMessage(|messages| - 1));
        roundIds := roundIds + [id];
        currentRound := id;
        pendingRound := None;
      } else {
        roundIds := roundIds + [None];
      }
      assert messages[..base] == old(messages)[..base];
      var pushed := messages[base..];
      assert pushed[..|pushed| - 1] == old(messages)[base..];
    }

    method ReplaceMessages(replacement: seq<Message>, timestamp: nat)
      requires Valid()
      modifies this
      ensures Valid()
      ensures messages == replacement && inputTokens == count(replacement)
      ensures pendingRound == None && currentRound == None
      ensures pendingRepairPrompt == old(pendingRepairPrompt)
      ensures compactionCounter == old(compactionCounter) + 1
      ensures forall i :: 0 <= i < |messages| ==>
                timestamps[i] == timestamp && roundIds[i] == Some(OfCompaction(compactionCounter))
      ensures base == |messages|
    {
      messages := replacement;
      inputTokens := count(replacement);
      timestamps := seq(|replacement|, _ => timestamp);
      compactionCounter := compactionCounter + 1;
      var id: Option<RoundId> := Some(OfCompaction(compactionCounter));
      roundIds := seq(|replacement|, _ => id);
      currentRound, pendingRound := None, None;
      base := |replacement|;
      assert messages[..base] == messages;
    }
  }
}
