/**
  Turning one batch of tool calls into one batch of results (src/runtime/dispatcher.ts).
 */
module Dispatch {
  import opened Common

  datatype ToolCall = ToolCall(id: string, name: string)

  datatype ResultEntry = ResultEntry(toolUseId: string, output: string, isError: bool)

  /** What running a known local tool did; NonRetryable is an error that escapes to the agent. */
  datatype LocalOutcome = Returned(output: string) | Failed(message: string) | NonRetryable

  datatype ChildOutcome = ChildDone(output: string, isError: bool) | ChildThrew(message: string)

  /**
    The world a batch runs in: the dispatch tools with their roles, the roles limited to one
    child per batch, and, by position in the batch, the local tool names and the abort flag as
    each call sees them and what running it does.
   */
  datatype Env = Env(
    roles: map<string, string>,
    workers: set<string>,
    known: nat -> set<string>,
    spawner: bool,
    aborted: nat -> bool,
    runLocal: nat -> LocalOutcome,
    runChild: nat -> ChildOutcome)

  datatype Outcome = Done(results: seq<ResultEntry>, aborted: bool) | Threw

  const MAX_CONSECUTIVE_INVALID := 3

  function CallIds(calls: seq<ToolCall>): seq<string> {
    seq(|calls|, i requires 0 <= i < |calls| => calls[i].id)
  }

  function ResultIdsOf(results: seq<ResultEntry>): seq<string> {
    seq(|results|, i requires 0 <= i < |results| => results[i].toolUseId)
  }

  /** The role a call is limited by, if any. */
  function LimitedRole(env: Env, tc: ToolCall): Option<string> {
    if tc.name in env.roles && env.roles[tc.name] in env.workers then Some(env.roles[tc.name]) else None
  }

  function Role(env: Env, tc: ToolCall): string {
    if tc.name in env.roles then env.roles[tc.name] else ""
  }

  /** A call that comes after another dispatch of the same worker role in the batch. */
  ghost predicate Duplicate(env: Env, calls: seq<ToolCall>, i: nat)
    requires i < |calls|
  {
    LimitedRole(env, calls[i]).Some? &&
    exists j :: 0 <= j < i && LimitedRole(env, calls[j]) == LimitedRole(env, calls[i])
  }

  /** The groups of a batch: local calls, rejected duplicates, allowed dispatches. */
  datatype Group = Local | Rejected | Allowed

  ghost function GroupOf(env: Env, calls: seq<ToolCall>, i: nat): Group
    requires i < |calls|
  {
    if calls[i].name !in env.roles then Local
    else if Duplicate(env, calls, i) then Rejected
    else Allowed
  }

  /** The positions of one group among the first n calls, in batch order. */
  ghost function Select(env: Env, calls: seq<ToolCall>, g: Group, n: nat): seq<nat>
    requires n <= |calls|
  {
    if n == 0 then []
    else Select(env, calls, g, n - 1) + if GroupOf(env, calls, n - 1) == g then [n - 1] else []
  }

  ghost predicate InBatch(calls: seq<ToolCall>, at: seq<nat>) {
    forall k :: 0 <= k < |at| ==> at[k] < |calls|
  }

  /** A group holds exactly its positions, each once and in order. */
  lemma {:induction false} SelectFacts(env: Env, calls: seq<ToolCall>, g: Group, n: nat)
    requires n <= |calls|
    ensures var s := Select(env, calls, g, n);
            && (forall i :: i in s <==> 0 <= i < n && GroupOf(env, calls, i) == g)
            && (forall k :: 0 <= k < |s| ==> s[k] < n)
            && (forall k, m :: 0 <= k < m < |s| ==> s[k] < s[m])
  {
    if n > 0 {
      SelectFacts(env, calls, g, n - 1);
    }
  }

  ghost function IdBag(calls: seq<ToolCall>, at: seq<nat>): multiset<string>
    requires InBatch(calls, at)
  {
    if at == [] then multiset{}
    else IdBag(calls, at[..|at| - 1]) + multiset{calls[at[|at| - 1]].id}
  }

  lemma {:induction false} IdBagSnoc(calls: seq<ToolCall>, at: seq<nat>, i: nat)
    requires InBatch(calls, at) && i < |calls|
    ensures InBatch(calls, at + [i])
    ensures IdBag(calls, at + [i]) == IdBag(calls, at) + multiset{calls[i].id}
  {
    assert (at + [i])[..|at|] == at;
  }

  ghost function GroupBag(env: Env, calls: seq<ToolCall>, g: Group, n: nat): multiset<string>
    requires n <= |calls|
  {
    SelectFacts(env, calls, g, n);
    IdBag(calls, Select(env, calls, g, n))
  }

  lemma {:induction false} GroupBagStep(env: Env, calls: seq<ToolCall>, g: Group, n: nat)
    requires n < |calls|
    ensures GroupBag(env, calls, g, n + 1) ==
              GroupBag(env, calls, g, n) + if GroupOf(env, calls, n) == g then multiset{calls[n].id} else multiset{}
  {
    SelectFacts(env, calls, g, n);
    if GroupOf(env, calls, n) == g {
      IdBagSnoc(calls, Select(env, calls, g, n), n);
    } else {
      assert Select(env, calls, g, n) + [] == Select(env, calls, g, n);
    }
  }

  /** The ids of the three groups are together those of the batch. */
  lemma {:induction false} GroupsPartition(env: Env, calls: seq<ToolCall>, n: nat)
    requires n <= |calls|
    ensures GroupBag(env, calls, Local, n) + GroupBag(env, calls, Rejected, n) + GroupBag(env, calls, Allowed, n)
         == multiset(CallIds(calls[..n]))
  {
    if n == 0 {
      assert CallIds(calls[..0]) == [];
    } else {
      var i := n - 1;
      GroupsPartition(env, calls, i);
      GroupBagStep(env, calls, Local, i);
      GroupBagStep(env, calls, Rejected, i);
      GroupBagStep(env, calls, Allowed, i);
      CallIdsStep(calls, i);
      var l, r, a := GroupBag(env, calls, Local, i), GroupBag(env, calls, Rejected, i),
          GroupBag(env, calls, Allowed, i);
      AddToOne(l, r, a, multiset{calls[i].id});
    }
  }

  lemma {:induction false} CallIdsStep(calls: seq<ToolCall>, i: nat)
    requires i < |calls|
    ensures multiset(CallIds(calls[..i + 1])) == multiset(CallIds(calls[..i])) + multiset{calls[i].id}
  {
    assert CallIds(calls[..i + 1]) == CallIds(calls[..i]) + [calls[i].id];
  }

  lemma {:induction false} AddToOne(l: multiset<string>, r: multiset<string>, a: multiset<string>, x: multiset<string>)
    ensures (l + x) + (r + multiset{}) + (a + multiset{}) == l + r + a + x
    ensures (l + multiset{}) + (r + x) + (a + multiset{}) == l + r + a + x
    ensures (l + multiset{}) + (r + multiset{}) + (a + x) == l + r + a + x
  {
  }

  /** At most one child of each limited role is allowed to run. */
  lemma {:induction false} AllowedRolesAreDistinct(env: Env, calls: seq<ToolCall>, i: nat, j: nat)
    requires i < j < |Select(env, calls, Allowed, |calls|)|
    ensures var s := Select(env, calls, Allowed, |calls|);
            && s[i] < s[j] < |calls|
            && (LimitedRole(env, calls[s[i]]).Some? ==> LimitedRole(env, calls[s[i]]) != LimitedRole(env, calls[s[j]]))
  {
    var s := Select(env, calls, Allowed, |calls|);
    SelectFacts(env, calls, Allowed, |calls|);
    assert s[i] in s && s[j] in s;
    assert !Duplicate(env, calls, s[j]);
  }

  // ------------------------------------------------------- when a batch throws

  /** Unknown local tools in a row before the k-th local call, counted on from earlier batches. */
  ghost function InvalidBefore(env: Env, calls: seq<ToolCall>, locals: seq<nat>, start: nat, k: nat): nat
    requires InBatch(calls, locals) && k <= |locals|
  {
    if k == 0 then start
    else
      var before, i := InvalidBefore(env, calls, locals, start, k - 1), locals[k - 1];
      if env.aborted(i) then before
      else if calls[i].name in env.known(i) then 0
      else before + 1
  }

  /** The k-th local call ends the agent: the third unknown tool in a row, or an error that escapes. */
  ghost predicate Escapes(env: Env, calls: seq<ToolCall>, locals: seq<nat>, start: nat, k: nat)
    requires InBatch(calls, locals) && k < |locals|
  {
    var i := locals[k];
    && !env.aborted(i)
    && if calls[i].name in env.known(i) then env.runLocal(i).NonRetryable?
       else InvalidBefore(env, calls, locals, start, k) + 1 >= 3
  }

  ghost predicate SomeEscapes(env: Env, calls: seq<ToolCall>, locals: seq<nat>, start: nat)
    requires InBatch(calls, locals)
  {
    exists k :: 0 <= k < |locals| && Escapes(env, calls, locals, start, k)
  }

  /** How many local calls are gone through, from the k-th on: up to the first that escapes, or all. */
  ghost function Reached(env: Env, calls: seq<ToolCall>, locals: seq<nat>, start: nat, k: nat): (n: nat)
    requires InBatch(calls, locals) && k <= |locals|
    ensures k <= n <= |locals|
    decreases |locals| - k
  {
    if k == |locals| then k
    else if Escapes(env, calls, locals, start, k) then k + 1
    else Reached(env, calls, locals, start, k + 1)
  }

  /** The count of unknown tools in a row that a batch leaves, however it ends. */
  ghost function InvalidLeft(env: Env, calls: seq<ToolCall>, start: nat): nat {
    SelectFacts(env, calls, Local, |calls|);
    var locals := Select(env, calls, Local, |calls|);
    InvalidBefore(env, calls, locals, start, Reached(env, calls, locals, start, 0))
  }

  /** A batch throws, given the count it starts with. */
  ghost predicate Fatal(env: Env, calls: seq<ToolCall>, start: nat) {
    SelectFacts(env, calls, Local, |calls|);
    SomeEscapes(env, calls, Select(env, calls, Local, |calls|), start)
  }

  /** Without aborts, three unknown local tools in a row are fatal wherever they stand. */
  lemma {:induction false} ThreeInARowAreFatal(env: Env, calls: seq<ToolCall>, locals: seq<nat>, start: nat, k: nat)
    requires InBatch(calls, locals) && k + 2 < |locals|
    requires forall m :: k <= m < k + 3 ==> !env.aborted(locals[m]) && calls[locals[m]].name !in env.known(locals[m])
    ensures SomeEscapes(env, calls, locals, start)
  {
    var second, third := k + 1, k + 2;
    assert InvalidBefore(env, calls, locals, start, second) == InvalidBefore(env, calls, locals, start, k) + 1;
    assert InvalidBefore(env, calls, locals, start, third) == InvalidBefore(env, calls, locals, start, second) + 1;
    assert Escapes(env, calls, locals, start, third);
  }

  /** One unknown tool alone is not: it is answered with an error. */
  lemma {:induction false} OneUnknownIsNotFatal(env: Env, calls: seq<ToolCall>)
    requires |calls| == 1 && calls[0].name !in env.roles && calls[0].name !in env.known(0)
    ensures !Fatal(env, calls, 0)
  {
    SelectFacts(env, calls, Local, 1);
  }

  // ------------------------------------------------------------------ answers

  /** The answer the call at a position must get, by its group. */
  ghost predicate AnswerFits(env: Env, calls: seq<ToolCall>, g: Group, i: nat, r: ResultEntry)
    requires i < |calls|
  {
    var tc := calls[i];
    && r.toolUseId == tc.id
    && match g
       case Rejected => r.isError
       case Local =>
         if env.aborted(i) || tc.name !in env.known(i) then r.isError
         else (match env.runLocal(i)
               case Returned(output) => r == ResultEntry(tc.id, output, false)
               case Failed(_) => r.isError
               case NonRetryable => false)
       case Allowed =>
         if env.aborted(i) || !env.spawner || tc.name !in env.roles then r.isError
         else (match env.runChild(i)
               case ChildDone(output, isError) => r == ResultEntry(tc.id, output, isError)
               case ChildThrew(_) => r.isError)
  }

  ghost predicate Answered(env: Env, calls: seq<ToolCall>, g: Group, at: seq<nat>, results: seq<ResultEntry>)
    requires InBatch(calls, at)
  {
    |results| == |at| && forall k :: 0 <= k < |at| ==> AnswerFits(env, calls, g, at[k], results[k])
  }

  lemma {:induction false} AnsweredSnoc(
    env: Env, calls: seq<ToolCall>, g: Group, at: seq<nat>, results: seq<ResultEntry>, k: nat, r: ResultEntry)
    requires InBatch(calls, at) && k < |at| && Answered(env, calls, g, at[..k], results)
    requires AnswerFits(env, calls, g, at[k], r)
    ensures Answered(env, calls, g, at[..k + 1], results + [r])
  {
    assert at[..k + 1] == at[..k] + [at[k]];
  }

  lemma {:induction false} AnsweredIds(env: Env, calls: seq<ToolCall>, g: Group, at: seq<nat>,
                                       results: seq<ResultEntry>)
    requires InBatch(calls, at) && Answered(env, calls, g, at, results)
    ensures multiset(ResultIdsOf(results)) == IdBag(calls, at)
  {
    if at == [] {
      assert ResultIdsOf(results) == [];
    } else {
      var n := |at| - 1;
      AnsweredIds(env, calls, g, at[..n], results[..n]);
      assert AnswerFits(env, calls, g, at[n], results[n]);
      assert ResultIdsOf(results) == ResultIdsOf(results[..n]) + [calls[at[n]].id];
    }
  }

  ghost predicate GroupAnswered(env: Env, calls: seq<ToolCall>, g: Group, results: seq<ResultEntry>) {
    SelectFacts(env, calls, g, |calls|);
    Answered(env, calls, g, Select(env, calls, g, |calls|), results)
  }

  /** Local results first, then rejections, then the children's results. */
  ghost predicate BatchAnswered(env: Env, calls: seq<ToolCall>, results: seq<ResultEntry>) {
    exists l, r, a ::
      && results == (l + r) + a
      && GroupAnswered(env, calls, Local, l)
      && GroupAnswered(env, calls, Rejected, r)
      && GroupAnswered(env, calls, Allowed, a)
  }

  lemma {:induction false} ResultIdsAppend(a: seq<ResultEntry>, b: seq<ResultEntry>)
    ensures ResultIdsOf(a + b) == ResultIdsOf(a) + ResultIdsOf(b)
  {
  }

  lemma {:induction false} GroupIds(env: Env, calls: seq<ToolCall>, g: Group, results: seq<ResultEntry>)
    requires GroupAnswered(env, calls, g, results)
    ensures multiset(ResultIdsOf(results)) == GroupBag(env, calls, g, |calls|)
  {
    SelectFacts(env, calls, g, |calls|);
    AnsweredIds(env, calls, g, Select(env, calls, g, |calls|), results);
  }

  /** Every call is answered exactly once. */
  lemma {:induction false} IdsAreAPermutation(env: Env, calls: seq<ToolCall>, results: seq<ResultEntry>)
    requires BatchAnswered(env, calls, results)
    ensures multiset(ResultIdsOf(results)) == multiset(CallIds(calls))
  {
    var l, r, a :|
      && results == (l + r) + a
      && GroupAnswered(env, calls, Local, l)
      && GroupAnswered(env, calls, Rejected, r)
      && GroupAnswered(env, calls, Allowed, a);
    GroupIds(env, calls, Local, l);
    GroupIds(env, calls, Rejected, r);
    GroupIds(env, calls, Allowed, a);
    ResultIdsAppend(l, r);
    ResultIdsAppend(l + r, a);
    GroupsPartition(env, calls, |calls|);
    assert calls[..|calls|] == calls;
  }

  class Dispatcher {
    var consecutiveInvalidCalls: nat

    constructor ()
      ensures consecutiveInvalidCalls == 0
    {
      consecutiveInvalidCalls := 0;
    }

    /** None when the error terminates the agent. */
    method ExecuteLocalTool(calls: seq<ToolCall>, i: nat, env: Env) returns (r: Option<ResultEntry>)
      requires i < |calls|
      modifies this
      ensures r.Some? && !env.aborted(i) ==> AnswerFits(env, calls, Local, i, r.value)
      ensures calls[i].name in env.known(i) ==>
                consecutiveInvalidCalls == 0 && (r.None? <==> env.runLocal(i).NonRetryable?)
      ensures calls[i].name !in env.known(i) ==>
                && consecutiveInvalidCalls == old(consecutiveInvalidCalls) + 1
                && (r.None? <==> consecutiveInvalidCalls >= 3)
    {
      var tc := calls[i];
      if tc.name !in env.known(i) {
        consecutiveInvalidCalls := consecutiveInvalidCalls + 1;
        if consecutiveInvalidCalls >= MAX_CONSECUTIVE_INVALID {
          return None;
        }
        return Some(ResultEntry(tc.id, "Error: unknown tool '" + tc.name + "'.", true));
      }
      consecutiveInvalidCalls := 0;
      match env.runLocal(i)
      case Returned(output) => return Some(ResultEntry(tc.id, output, false));
      case Failed(message) => return Some(ResultEntry(tc.id, "Error: " + message, true));
      case NonRetryable => return None;
    }

    method ExecuteDispatchTool(calls: seq<ToolCall>, i: nat, env: Env) returns (r: ResultEntry)
      requires i < |calls|
      ensures !env.aborted(i) ==> AnswerFits(env, calls, Allowed, i, r)
    {
      var tc := calls[i];
      if !env.spawner {
        return ResultEntry(tc.id, "Error: agent dispatch not available in this context", true);
      }
      if tc.name !in env.roles {
        return ResultEntry(tc.id, "Error: unknown dispatch tool '" + tc.name + "'", true);
      }
      match env.runChild(i)
      case ChildDone(output, isError) => return ResultEntry(tc.id, output, isError);
      case ChildThrew(message) =>
        return ResultEntry(tc.id, "Error spawning " + env.roles[tc.name] + ": " + message, true);
    }

    /** Splits a batch into local calls, rejected duplicates and allowed dispatches. */
    method Partition(calls: seq<ToolCall>, env: Env)
      returns (locals: seq<nat>, rejected: seq<nat>, allowed: seq<nat>)
      ensures locals == Select(env, calls, Local, |calls|)
      ensures rejected == Select(env, calls, Rejected, |calls|)
      ensures allowed == Select(env, calls, Allowed, |calls|)
    {
      locals, rejected, allowed := [], [], [];
      var seen: set<string> := {};
      for i := 0 to |calls|
        invariant locals == Select(env, calls, Local, i)
        invariant rejected == Select(env, calls, Rejected, i)
        invariant allowed == Select(env, calls, Allowed, i)
        invariant forall role :: role in seen <==> exists j :: 0 <= j < i && LimitedRole(env, calls[j]) == Some(role)
      {
        var tc := calls[i];
        if tc.name !in env.roles {
          locals := locals + [i];
        } else {
          var role := env.roles[tc.name];
          if role in env.workers && role in seen {
            rejected := rejected + [i];
          } else {
            if role in env.workers {
              seen := seen + {role};
            }
            allowed := allowed + [i];
          }
        }
      }
    }

    /**
      Local calls run one after another; a call after an abort is answered as aborted. It throws
      exactly when some call escapes.
     */
    method AnswerLocals(calls: seq<ToolCall>, locals: seq<nat>, env: Env)
      returns (results: seq<ResultEntry>, aborted: bool, threw: bool)
      requires InBatch(calls, locals)
      modifies this
      ensures threw <==> SomeEscapes(env, calls, locals, old(consecutiveInvalidCalls))
      ensures var start := old(consecutiveInvalidCalls);
              consecutiveInvalidCalls == InvalidBefore(env, calls, locals, start, Reached(env, calls, locals, start, 0))
      ensures !threw ==>
                && Answered(env, calls, Local, locals, results)
                && (aborted <==> exists k :: 0 <= k < |locals| && env.aborted(locals[k]))
                && consecutiveInvalidCalls == InvalidBefore(env, calls, locals, old(consecutiveInvalidCalls), |locals|)
    {
      ghost var start := consecutiveInvalidCalls;
      results, aborted, threw := [], false, false;
      for k := 0 to |locals|
        invariant Answered(env, calls, Local, locals[..k], results)
        invariant aborted <==> exists m :: 0 <= m < k && env.aborted(locals[m])
        invariant consecutiveInvalidCalls == InvalidBefore(env, calls, locals, start, k)
        invariant forall m :: 0 <= m < k ==> !Escapes(env, calls, locals, start, m)
        invariant Reached(env, calls, locals, start, 0) == Reached(env, calls, locals, start, k)
      {
        var i := locals[k];
        var entry := ResultEntry(calls[i].id, "Aborted: operation cancelled", true);
        if env.aborted(i) {
          aborted := true;
        } else {
          var r := ExecuteLocalTool(calls, i, env);
          if r.None? {
            assert Escapes(env, calls, locals, start, k);
            return results, aborted, true;
          }
          entry := r.value;
        }
        AnsweredSnoc(env, calls, Local, locals, results, k, entry);
        results := results + [entry];
      }
      assert locals[..|locals|] == locals;
    }

    method AnswerRejected(calls: seq<ToolCall>, rejected: seq<nat>, env: Env) returns (results: seq<ResultEntry>)
      requires InBatch(calls, rejected)
      ensures Answered(env, calls, Rejected, rejected, results)
    {
      results := [];
      for k := 0 to |rejected|
        invariant Answered(env, calls, Rejected, rejected[..k], results)
      {
        var tc := calls[rejected[k]];
        var text := "Error: only 1 " + Role(env, tc) + " can run concurrently. This dispatch was rejected.";
        AnsweredSnoc(env, calls, Rejected, rejected, results, k, ResultEntry(tc.id, text, true));
        results := results + [ResultEntry(tc.id, text, true)];
      }
      assert rejected[..|rejected|] == rejected;
    }

    /** The children run together; their results keep the order of the calls. */
    method AnswerAllowed(calls: seq<ToolCall>, allowed: seq<nat>, env: Env) returns (results: seq<ResultEntry>)
      requires InBatch(calls, allowed)
      ensures Answered(env, calls, Allowed, allowed, results)
    {
      results := [];
      for k := 0 to |allowed|
        invariant Answered(env, calls, Allowed, allowed[..k], results)
      {
        var i := allowed[k];
        var entry := ResultEntry(calls[i].id, "Aborted: operation cancelled", true);
        if !env.aborted(i) {
          entry := ExecuteDispatchTool(calls, i, env);
        }
        AnsweredSnoc(env, calls, Allowed, allowed, results, k, entry);
        results := results + [entry];
      }
      assert allowed[..|allowed|] == allowed;
    }

    /**
      Every call of the batch gets exactly one answer, and the right one, or the batch throws;
      it throws exactly when a call escapes, unknown tools being counted on across batches.
     */
    method ProcessToolCalls(calls: seq<ToolCall>, env: Env) returns (outcome: Outcome)
      modifies this
      ensures outcome.Threw? <==> Fatal(env, calls, old(consecutiveInvalidCalls))
      ensures consecutiveInvalidCalls == InvalidLeft(env, calls, old(consecutiveInvalidCalls))
      ensures outcome.Done? ==>
                && BatchAnswered(env, calls, outcome.results)
                && multiset(ResultIdsOf(outcome.results)) == multiset(CallIds(calls))
                && InvalidCarriedOn(env, calls, old(consecutiveInvalidCalls), consecutiveInvalidCalls)
                && (outcome.aborted <==>
                      exists i :: 0 <= i < |calls| && GroupOf(env, calls, i) == Local && env.aborted(i))
    {
      var locals, rejected, allowed := Partition(calls, env);
      SelectFacts(env, calls, Local, |calls|);
      SelectFacts(env, calls, Rejected, |calls|);
      SelectFacts(env, calls, Allowed, |calls|);
      var l, aborted, threw := AnswerLocals(calls, locals, env);
      if threw {
        return Threw;
      }
      var r := AnswerRejected(calls, rejected, env);
      var a := AnswerAllowed(calls, allowed, env);
      assert BatchAnswered(env, calls, (l + r) + a);
      IdsAreAPermutation(env, calls, (l + r) + a);
      AbortedLocal(env, calls, locals);
      return Done((l + r) + a, aborted);
    }
  }

  /** The count a batch leaves for the next one. */
  ghost predicate InvalidCarriedOn(env: Env, calls: seq<ToolCall>, start: nat, after: nat) {
    SelectFacts(env, calls, Local, |calls|);
    var locals := Select(env, calls, Local, |calls|);
    after == InvalidBefore(env, calls, locals, start, |locals|)
  }

  lemma {:induction false} AbortedLocal(env: Env, calls: seq<ToolCall>, locals: seq<nat>)
    requires locals == Select(env, calls, Local, |calls|)
    ensures (exists k :: 0 <= k < |locals| && env.aborted(locals[k])) <==>
              exists i :: 0 <= i < |calls| && GroupOf(env, calls, i) == Local && env.aborted(i)
  {
    SelectFacts(env, calls, Local, |calls|);
    if k :| 0 <= k < |locals| && env.aborted(locals[k]) {
      assert locals[k] in locals;
      assert GroupOf(env, calls, locals[k]) == Local;
    }
    if i :| 0 <= i < |calls| && GroupOf(env, calls, i) == Local && env.aborted(i) {
      assert i in locals;
      var k :| 0 <= k < |locals| && locals[k] == i;
      assert env.aborted(locals[k]);
    }
  }
}
