/**
  Failover at run time: the walk of one chat call along its chain, the cooldown of failing
  candidates and the sticky failover with its primary retry window (src/providers/router.ts,
  src/providers/health-tracker.ts). Time is in milliseconds and is an input.
 */
module Router {
  import opened Common
  import opened Planner

  datatype Error = Error(kind: string, message: string)

  /** What a candidate meets before it is called; the search for its key may end in an error. */
  datatype Gate = Ready | NotRegistered | NoImages | KeyRejected(error: Error) | RateLimited

  datatype Outcome = Answered(response: string) | Refused(error: Error) | Failed(error: Error)

  /** One candidate's turn: the clock when it is considered and after its call. */
  datatype Turn = Turn(now: real, gate: Gate, outcome: Outcome, after: real)

  datatype Health = Health(failures: nat, disabledUntil: real, backoff: real)

  datatype StickyState = StickyState(spec: string, retryDelay: real, nextPrimaryRetryAt: real)

  datatype ChatResult = Response(spec: string, text: string) | Propagated(error: Error) | Exhausted(last: Option<Error>)

  // ---------------------------------------------------------------- delays

  function Min(a: real, b: real): real {
    if a <= b then a else b
  }

  function Power(k: nat): real {
    if k == 0 then 1.0 else 1.5 * Power(k - 1)
  }

  /** The k-th delay, counted from 0, of a series that grows by half up to a cap. */
  function Delay(base: real, cap: real, k: nat): real {
    Min(base * Power(k), cap)
  }

  lemma {:induction false} DelayStep(base: real, cap: real, k: nat)
    requires base > 0.0 && cap > 0.0
    ensures Min(Delay(base, cap, k) * 1.5, cap) == Delay(base, cap, k + 1)
  {
    var x := base * Power(k);
    assert base * Power(k + 1) == 1.5 * x;
  }

  function Backoff(k: nat): real {
    Delay(15000.0, 600000.0, k)
  }

  function StickyDelay(k: nat): real {
    Delay(30000.0, 1200000.0, k)
  }

  /** The delays grow by half from the base until they reach the cap, and there they stay. */
  lemma {:induction false} DelaysGrow(base: real, cap: real, k: nat)
    requires 0.0 < base <= cap
    ensures Delay(base, cap, 0) == base
    ensures Delay(base, cap, k + 1) ==
              if Delay(base, cap, k) * 3.0 / 2.0 <= cap then Delay(base, cap, k) * 3.0 / 2.0 else cap
    ensures base <= Delay(base, cap, k) <= Delay(base, cap, k + 1) <= cap
  {
    DelayStep(base, cap, k);
    if k > 0 {
      DelaysGrow(base, cap, k - 1);
    }
  }

  /** Ten failures in a row, and the cap is reached; nine are not enough. */
  lemma {:induction false} CapIsReached(k: nat)
    ensures k >= 10 <==> Backoff(k) == 600000.0
    ensures k >= 10 <==> StickyDelay(k) == 1200000.0
  {
    assert Power(9) < 40.0 <= Power(10) by {
      assert Power(3) == 3.375 && Power(6) == 11.390625;
    }
    if k <= 9 {
      PowersGrow(k, 9);
    } else {
      PowersGrow(10, k);
    }
  }

  lemma {:induction false} PowersGrow(i: nat, k: nat)
    requires i <= k
    ensures 1.0 <= Power(i) <= Power(k)
    decreases k
  {
    if i < k {
      PowersGrow(i, k - 1);
    } else if k > 0 {
      PowersGrow(k - 1, k - 1);
    }
  }

  // --------------------------------------------------------------- history

  /** What has happened: chat calls, each with its calls to candidates, and forced resets. */
  datatype Event =
    | Begun(requested: string)
    | Called(requested: string, spec: string, key: string, turn: Turn)
    | Reset(keys: set<string>)
    | Cleared(spec: string)

  /** Failures of a candidate since it last answered or was reset. */
  ghost function FailuresInARow(history: seq<Event>, key: string): nat {
    if history == [] then 0
    else
      var before, last := FailuresInARow(history[..|history| - 1], key), history[|history| - 1];
      match last
      case Reset(keys) => if key in keys then 0 else before
      case Called(_, _, k, turn) =>
        if k != key || turn.outcome.Refused? then before
        else if turn.outcome.Answered? then 0
        else before + 1
      case _ => before
  }

  /** Until when a candidate is disabled: the k-th failure in a row costs the k-th delay. */
  ghost function DisabledUntil(history: seq<Event>, key: string): real {
    if history == [] then 0.0
    else
      var init, last := history[..|history| - 1], history[|history| - 1];
      match last
      case Reset(keys) => if key in keys then 0.0 else DisabledUntil(init, key)
      case Called(_, _, k, turn) =>
        if k != key || turn.outcome.Refused? then DisabledUntil(init, key)
        else if turn.outcome.Answered? then 0.0
        else turn.after + Backoff(FailuresInARow(init, key))
      case _ => DisabledUntil(init, key)
  }

  ghost function HealthOf(history: seq<Event>, key: string): Health {
    var k := FailuresInARow(history, key);
    Health(k, DisabledUntil(history, key), Backoff(k))
  }

  /** No candidate was ever called while disabled or not ready. */
  ghost predicate Disciplined(history: seq<Event>) {
    forall i :: 0 <= i < |history| && history[i].Called? ==>
      var e := history[i];
      e.turn.gate.Ready? && DisabledUntil(history[..i], e.key) <= e.turn.now
  }

  lemma {:induction false} DisciplinedSnoc(history: seq<Event>, e: Event)
    requires Disciplined(history)
    requires e.Called? ==> e.turn.gate.Ready? && DisabledUntil(history, e.key) <= e.turn.now
    ensures Disciplined(history + [e])
  {
    var longer := history + [e];
    assert longer[..|history|] == history;
    forall i | 0 <= i < |longer| && longer[i].Called?
      ensures longer[i].turn.gate.Ready? && DisabledUntil(longer[..i], longer[i].key) <= longer[i].turn.now
    {
      assert longer[..i] == history[..i];
    }
  }

  predicate Touches(e: Event, key: string) {
    match e
    case Called(_, _, k, _) => k == key
    case Reset(keys) => key in keys
    case _ => false
  }

  lemma {:induction false} OthersKeepHealth(history: seq<Event>, calls: seq<Event>, key: string)
    requires forall e :: e in calls ==> !Touches(e, key)
    ensures HealthOf(history + calls, key) == HealthOf(history, key)
  {
    if calls == [] {
      assert history + calls == history;
    } else {
      var init, last := calls[..|calls| - 1], calls[|calls| - 1];
      OthersKeepHealth(history, init, key);
      var all := history + calls;
      assert last in calls && all[|all| - 1] == last;
      assert all[..|all| - 1] == history + init;
    }
  }

  /** After k failures in a row, with calls to others in between, the k-th delay is running. */
  lemma {:induction false} KthFailure(history: seq<Event>, later: seq<Event>, key: string, k: nat)
    requires FailuresInARow(history, key) == k && later != []
    requires later[0].Called? && later[0].key == key && later[0].turn.outcome.Failed?
    requires forall i :: 0 < i < |later| ==> !Touches(later[i], key)
    ensures HealthOf(history + later, key) == Health(k + 1, later[0].turn.after + Backoff(k), Backoff(k + 1))
  {
    var first := history + [later[0]];
    assert first[..|history|] == history;
    assert history + later == first + later[1..];
    OthersKeepHealth(first, later[1..], key);
  }

  /** A disciplined router leaves a failed candidate alone for the whole of its delay. */
  lemma {:induction false} CallsAreSpaced(history: seq<Event>, i: nat, j: nat)
    requires Disciplined(history) && i < j < |history|
    requires history[i].Called? && history[i].turn.outcome.Failed?
    requires history[j].Called? && history[j].key == history[i].key
    requires forall m :: i < m < j ==> !Touches(history[m], history[i].key)
    ensures history[j].turn.now >= history[i].turn.after + Backoff(FailuresInARow(history[..i], history[i].key))
  {
    var key := history[i].key;
    assert history[..j] == history[..i] + history[i..j];
    KthFailure(history[..i], history[i..j], key, FailuresInARow(history[..i], key));
  }

  // --------------------------------------------------------- the health map

  class ModelHealthTracker {
    var health: map<string, Health>

    constructor ()
      ensures health == map[] && Tracks([])
    {
      health := map[];
      new;
      assert Backoff(0) == 15000.0;
    }

    ghost function Entry(key: string): Health
      reads this
    {
      if key in health then health[key] else Health(0, 0.0, 15000.0)
    }

    /** The map holds what the history of calls says of every candidate. */
    ghost predicate Tracks(history: seq<Event>)
      reads this
    {
      forall key :: Entry(key) == HealthOf(history, key)
    }

    method GetHealth(key: string, ghost history: seq<Event>) returns (h: Health)
      requires Tracks(history)
      modifies this
      ensures Tracks(history) && key in health && h == HealthOf(history, key)
    {
      if key !in health {
        assert Entry(key) == HealthOf(history, key);
        health := health[key := Health(0, 0.0, 15000.0)];
      }
      h := health[key];
      assert h == Entry(key);
    }

    method RecordFailure(key: string, now: real, ghost history: seq<Event>, ghost e: Event)
      requires Tracks(history) && key in health
      requires e.Called? && e.key == key && e.turn.outcome.Failed? && e.turn.after == now
      modifies this
      ensures Tracks(history + [e])
    {
      ghost var k := FailuresInARow(history, key);
      assert Entry(key) == HealthOf(history, key);
      DelayStep(15000.0, 600000.0, k);
      var h := health[key];
      health := health[key := Health(h.failures + 1, now + h.backoff, Min(h.backoff * 1.5, 600000.0))];
      assert (history + [e])[..|history|] == history;
      assert forall other :: other != key ==> Entry(other) == old(Entry(other));
    }

    method ResetHealth(key: string, ghost history: seq<Event>, ghost e: Event)
      requires Tracks(history)
      requires e.Called? && e.key == key && e.turn.outcome.Answered?
      modifies this
      ensures Tracks(history + [e])
    {
      health := health - {key};
      assert (history + [e])[..|history|] == history;
      assert Backoff(0) == 15000.0;
      assert forall other :: other != key ==> Entry(other) == old(Entry(other));
    }

    /** A refused call leaves its candidate's health alone. */
    lemma {:induction false} RefusedKeepsHealth(history: seq<Event>, e: Event)
      requires Tracks(history) && e.Called? && e.turn.outcome.Refused?
      ensures Tracks(history + [e])
    {
      assert (history + [e])[..|history|] == history;
    }

    method ResetModelHealth(candidates: seq<Candidate>, ghost history: seq<Event>)
      requires Tracks(history)
      modifies this
      ensures Tracks(history + [Reset(Keys(candidates))])
    {
      for i := 0 to |candidates|
        invariant forall key :: Entry(key) == if key in Keys(candidates[..i]) then Health(0, 0.0, 15000.0)
                    else HealthOf(history, key)
      {
        ghost var before := health;
        KeysSnoc(candidates[..i], candidates[i]);
        assert candidates[..i + 1] == candidates[..i] + [candidates[i]];
        if candidates[i].healthKey in health {
          health := health - {candidates[i].healthKey};
        }
      }
      assert candidates[..|candidates|] == candidates;
      assert (history + [Reset(Keys(candidates))])[..|history|] == history;
      assert Backoff(0) == 15000.0;
    }
  }

  // --------------------------------------------------------- one chat call

  /** A candidate is called when it is past its cooldown and nothing stands in the way. */
  ghost predicate Usable(history: seq<Event>, c: Candidate, turn: Turn) {
    DisabledUntil(history, c.healthKey) <= turn.now && turn.gate.Ready?
  }

  /** The calls made along the first n candidates of a chain. */
  ghost function CallsOf(history: seq<Event>, requested: string, chain: seq<Candidate>, turns: nat -> Turn,
                         n: nat): seq<Event>
    requires n <= |chain|
  {
    if n == 0 then []
    else
      var sofar, c, turn := CallsOf(history, requested, chain, turns, n - 1), chain[n - 1], turns(n - 1);
      if Usable(history, c, turn) then sofar + [Called(requested, c.spec, c.healthKey, turn)] else sofar
  }

  lemma {:induction false} CallsAreOfTheChain(history: seq<Event>, requested: string, chain: seq<Candidate>,
                                              turns: nat -> Turn, n: nat, e: Event)
    requires n <= |chain| && e in CallsOf(history, requested, chain, turns, n)
    ensures exists i :: 0 <= i < n && Usable(history, chain[i], turns(i))
              && e == Called(requested, chain[i].spec, chain[i].healthKey, turns(i))
  {
    if e in CallsOf(history, requested, chain, turns, n - 1) {
      CallsAreOfTheChain(history, requested, chain, turns, n - 1, e);
    } else {
      assert Usable(history, chain[n - 1], turns(n - 1));
    }
  }

  /** A candidate's health at its turn is the one before the call: earlier calls went elsewhere. */
  lemma {:induction false} HealthAtTurn(history: seq<Event>, requested: string, chain: seq<Candidate>,
                                        turns: nat -> Turn, n: nat)
    requires n < |chain| && DistinctKeys(chain)
    ensures HealthOf(history + CallsOf(history, requested, chain, turns, n), chain[n].healthKey)
              == HealthOf(history, chain[n].healthKey)
  {
    var calls := CallsOf(history, requested, chain, turns, n);
    forall e | e in calls
      ensures !Touches(e, chain[n].healthKey)
    {
      CallsAreOfTheChain(history, requested, chain, turns, n, e);
    }
    OthersKeepHealth(history, calls, chain[n].healthKey);
  }

  /** The search for the candidate's key ends the walk: nothing is called and no failure recorded. */
  ghost predicate Rejected(history: seq<Event>, c: Candidate, turn: Turn) {
    DisabledUntil(history, c.healthKey) <= turn.now && turn.gate.KeyRejected?
  }

  /** The candidate did not end the walk. */
  ghost predicate PassedOver(history: seq<Event>, c: Candidate, turn: Turn) {
    !Rejected(history, c, turn) && (Usable(history, c, turn) ==> turn.outcome.Failed?)
  }

  const NoImageSupport := Error("transient", "provider does not support image inputs")

  /** The error reported when every candidate was passed over. */
  ghost function LastError(history: seq<Event>, chain: seq<Candidate>, turns: nat -> Turn, n: nat): Option<Error>
    requires n <= |chain|
  {
    if n == 0 then None
    else
      var turn := turns(n - 1);
      if DisabledUntil(history, chain[n - 1].healthKey) > turn.now then LastError(history, chain, turns, n - 1)
      else if turn.gate.NoImages? then Some(NoImageSupport)
      else if turn.gate.Ready? && turn.outcome.Failed? then Some(turn.outcome.error)
      else LastError(history, chain, turns, n - 1)
  }

  /**
    How a walk along a chain ends: at the first usable candidate that does not merely fail, with
    its outcome, at one whose key cannot be had, with that error, or at the end of the chain, every
    candidate having been passed over.
   */
  ghost predicate Ends(history: seq<Event>, chain: seq<Candidate>, turns: nat -> Turn, stop: nat, result: ChatResult) {
    && stop <= |chain|
    && match result
       case Exhausted(last) =>
         && stop == |chain|
         && (forall i :: 0 <= i < stop ==> PassedOver(history, chain[i], turns(i)))
         && last == LastError(history, chain, turns, stop)
       case Response(spec, text) =>
         && stop > 0
         && (forall i :: 0 <= i < stop - 1 ==> PassedOver(history, chain[i], turns(i)))
         && Usable(history, chain[stop - 1], turns(stop - 1))
         && turns(stop - 1).outcome == Answered(text) && spec == chain[stop - 1].spec
       case Propagated(error) =>
         && stop > 0
         && (forall i :: 0 <= i < stop - 1 ==> PassedOver(history, chain[i], turns(i)))
         && if Rejected(history, chain[stop - 1], turns(stop - 1)) then turns(stop - 1).gate.error == error
            else Usable(history, chain[stop - 1], turns(stop - 1)) && turns(stop - 1).outcome == Refused(error)
  }

  /** No candidate so far has ended the walk. */
  ghost predicate Unsettled(history: seq<Event>, chain: seq<Candidate>, turns: nat -> Turn, n: nat,
                            lastError: Option<Error>)
    requires n <= |chain|
  {
    && (forall k :: 0 <= k < n ==> PassedOver(history, chain[k], turns(k)))
    && lastError == LastError(history, chain, turns, n)
  }

  ghost predicate Walked(before: seq<Event>, now: seq<Event>, requested: string, chain: seq<Candidate>,
                         turns: nat -> Turn, n: nat, tried: bool)
    requires n <= |chain|
  {
    && now == before + CallsOf(before, requested, chain, turns, n)
    && tried == AttemptedPrimary(CallsOf(before, requested, chain, turns, n), requested)
  }

  /** A candidate that cannot be used only for want of image support. */
  ghost predicate Barred(history: seq<Event>, c: Candidate, turn: Turn) {
    DisabledUntil(history, c.healthKey) <= turn.now && turn.gate.NoImages?
  }

  /** One more candidate: its health now is its health before, and its call is the next one. */
  lemma {:induction false} WalkedStep(before: seq<Event>, now: seq<Event>, requested: string, chain: seq<Candidate>,
                                      turns: nat -> Turn, n: nat, tried: bool)
    requires n < |chain| && DistinctKeys(chain) && Walked(before, now, requested, chain, turns, n, tried)
    ensures Usable(now, chain[n], turns(n)) == Usable(before, chain[n], turns(n))
    ensures Barred(now, chain[n], turns(n)) == Barred(before, chain[n], turns(n))
    ensures Rejected(now, chain[n], turns(n)) == Rejected(before, chain[n], turns(n))
    ensures Usable(now, chain[n], turns(n)) ==>
              Walked(before, now + [Called(requested, chain[n].spec, chain[n].healthKey, turns(n))], requested, chain,
                     turns, n + 1, tried || chain[n].spec == requested)
    ensures !Usable(now, chain[n], turns(n)) ==> Walked(before, now, requested, chain, turns, n + 1, tried)
  {
    var calls := CallsOf(before, requested, chain, turns, n);
    var e := Called(requested, chain[n].spec, chain[n].healthKey, turns(n));
    HealthAtTurn(before, requested, chain, turns, n);
    AppendAssoc(before, calls, [e]);
    PrimarySnoc(calls, e, requested);
  }

  /** What one candidate's turn does to the walk as a whole. */
  lemma {:induction false} SettleStep(history: seq<Event>, chain: seq<Candidate>, turns: nat -> Turn, n: nat,
                                      lastError: Option<Error>)
    requires n < |chain| && Unsettled(history, chain, turns, n, lastError)
    ensures Rejected(history, chain[n], turns(n)) ==>
              Ends(history, chain, turns, n + 1, Propagated(turns(n).gate.error))
    ensures !Usable(history, chain[n], turns(n)) && !Rejected(history, chain[n], turns(n)) ==>
              Unsettled(history, chain, turns, n + 1, if Barred(history, chain[n], turns(n)) then Some(NoImageSupport)
                        else lastError)
    ensures Usable(history, chain[n], turns(n)) ==>
              match turns(n).outcome
              case Answered(text) => Ends(history, chain, turns, n + 1, Response(chain[n].spec, text))
              case Refused(error) => Ends(history, chain, turns, n + 1, Propagated(error))
              case Failed(error) => Unsettled(history, chain, turns, n + 1, Some(error))
  {
  }

  ghost predicate AttemptedPrimary(calls: seq<Event>, requested: string) {
    exists e :: e in calls && e.Called? && e.requested == requested && e.spec == requested
  }

  // -------------------------------------------------------- sticky failovers

  /** In the chat call under way the requested spec itself has been called. */
  ghost predicate Trying(history: seq<Event>, requested: string) {
    && history != []
    && var init, last := history[..|history| - 1], history[|history| - 1];
       match last
       case Begun(_) => false
       case Called(r, spec, _, _) => Trying(init, requested) || (r == requested && spec == requested)
       case _ => Trying(init, requested)
  }

  /** Another model answered for a spec that names a provider. */
  ghost predicate FailsOver(e: Event, spec: string) {
    e.Called? && e.requested == spec && e.turn.outcome.Answered? && e.spec != spec && '/' in spec
  }

  /** The spec answered for itself, or its failover was cleared by hand. */
  ghost predicate Recovers(e: Event, spec: string) {
    (e.Called? && e.requested == spec && e.turn.outcome.Answered? && e.spec == spec) || e == Cleared(spec)
  }

  /**
    How many retry windows have been set for a spec since it last recovered: the first answer of
    a failover sets one, a later one only when the spec itself was tried in the same chat call.
   */
  ghost function Windows(history: seq<Event>, spec: string): nat {
    if history == [] then 0
    else
      var init, last := history[..|history| - 1], history[|history| - 1];
      var before := Windows(init, spec);
      if Recovers(last, spec) then 0
      else if FailsOver(last, spec) && (Trying(init, spec) || before == 0) then before + 1
      else before
  }

  /** The sticky failover of a spec: the model that set the latest window, and that window. */
  ghost function StickyOf(history: seq<Event>, spec: string): Option<StickyState> {
    if history == [] then None
    else
      var init, last := history[..|history| - 1], history[|history| - 1];
      var before := StickyOf(init, spec);
      if Recovers(last, spec) then None
      else if FailsOver(last, spec) && (Trying(init, spec) || before.None?) then
        var delay := StickyDelay(Windows(init, spec));
        Some(StickyState(last.spec, delay, last.turn.after + delay))
      else before
  }

  /** The k-th window since the last recovery lasts the k-th delay of its series. */
  lemma {:induction false} KthWindow(history: seq<Event>, spec: string)
    ensures StickyOf(history, spec).Some? <==> Windows(history, spec) > 0
    ensures StickyOf(history, spec).Some? ==>
              && StickyOf(history, spec).value.retryDelay == StickyDelay(Windows(history, spec) - 1)
              && StickyOf(history, spec).value.spec != spec && '/' in spec
  {
    if history != [] {
      KthWindow(history[..|history| - 1], spec);
    }
  }

  /** A failover answered for the spec, and the spec has not recovered since. */
  ghost predicate FailedOver(history: seq<Event>, spec: string) {
    exists i :: 0 <= i < |history| && FailsOver(history[i], spec) && NoRecovery(history[i + 1..], spec)
  }

  ghost predicate NoRecovery(events: seq<Event>, spec: string) {
    forall e :: e in events ==> !Recovers(e, spec)
  }

  lemma {:induction false} FailedOverSnoc(history: seq<Event>, e: Event, spec: string)
    ensures FailedOver(history + [e], spec) <==>
              FailsOver(e, spec) || (FailedOver(history, spec) && !Recovers(e, spec))
  {
    var n, longer := |history|, history + [e];
    forall i | 0 <= i < n
      ensures longer[i] == history[i] && longer[i + 1..] == history[i + 1..] + [e]
      ensures NoRecovery(longer[i + 1..], spec) <==> NoRecovery(history[i + 1..], spec) && !Recovers(e, spec)
    {
      var rest := history[i + 1..];
      assert longer[i + 1..] == rest + [e];
      assert e in rest + [e] && forall x :: x in rest ==> x in rest + [e];
    }
    assert longer[n] == e && NoRecovery(longer[n + 1..], spec);
    if FailedOver(history, spec) && !Recovers(e, spec) {
      var i :| 0 <= i < n && FailsOver(history[i], spec) && NoRecovery(history[i + 1..], spec);
      assert FailsOver(longer[i], spec);
    }
  }

  lemma {:induction false} StickyIffFailedOver(history: seq<Event>, spec: string)
    ensures StickyOf(history, spec).Some? <==> FailedOver(history, spec)
  {
    if history != [] {
      var init, last := history[..|history| - 1], history[|history| - 1];
      assert history == init + [last];
      StickyIffFailedOver(init, spec);
      FailedOverSnoc(init, last, spec);
    }
  }

  /** No answer to a request for the spec, and no clearing of it. */
  ghost predicate Quiet(events: seq<Event>, spec: string) {
    forall e :: e in events ==> !FailsOver(e, spec) && !Recovers(e, spec)
  }

  lemma {:induction false} QuietKeepsSticky(history: seq<Event>, events: seq<Event>, spec: string)
    requires Quiet(events, spec)
    ensures StickyOf(history + events, spec) == StickyOf(history, spec)
    ensures Windows(history + events, spec) == Windows(history, spec)
  {
    if events == [] {
      assert history + events == history;
    } else {
      var n := |events| - 1;
      var all := history + events;
      assert events[n] in events && all[|all| - 1] == events[n] && all[..|all| - 1] == history + events[..n];
      QuietKeepsSticky(history, events[..n], spec);
    }
  }

  /** Only calls to candidates of the requested spec. */
  ghost predicate CallsFor(events: seq<Event>, requested: string) {
    forall e :: e in events ==> e.Called? && e.requested == requested
  }

  lemma {:induction false} TryingSinceBegun(history: seq<Event>, calls: seq<Event>, requested: string)
    requires history != [] && history[|history| - 1].Begun? && CallsFor(calls, requested)
    ensures Trying(history + calls, requested) <==> AttemptedPrimary(calls, requested)
  {
    if calls == [] {
      assert history + calls == history;
    } else {
      var n := |calls| - 1;
      var all := history + calls;
      assert calls[n] in calls && all[|all| - 1] == calls[n] && all[..|all| - 1] == history + calls[..n];
      assert calls == calls[..n] + [calls[n]];
      TryingSinceBegun(history, calls[..n], requested);
      PrimarySnoc(calls[..n], calls[n], requested);
    }
  }

  /**
    A sticky failover stays as it is through a whole chat call that does not try its primary:
    answers of the failover do not push its retry window forward.
   */
  lemma {:induction false} UntriedStays(history: seq<Event>, calls: seq<Event>, requested: string, spec: string)
    requires history != [] && history[|history| - 1].Begun? && CallsFor(calls, requested)
    requires StickyOf(history, spec).Some? && !AttemptedPrimary(calls, spec)
    ensures StickyOf(history + calls, spec) == StickyOf(history, spec)
  {
    if calls == [] {
      assert history + calls == history;
    } else {
      var n := |calls| - 1;
      var all, last := history + calls, calls[n];
      assert last in calls && all[|all| - 1] == last && all[..|all| - 1] == history + calls[..n];
      assert calls == calls[..n] + [last];
      UntriedStays(history, calls[..n], requested, spec);
      if requested == spec {
        PrimarySnoc(calls[..n], last, requested);
        TryingSinceBegun(history, calls[..n], requested);
      }
    }
  }

  lemma {:induction false} ChatStays(history: seq<Event>, calls: seq<Event>, requested: string, spec: string)
    requires CallsFor(calls, requested)
    ensures var now := Begin(history, requested) + calls;
            && history <= now
            && (StickyOf(history, spec).Some? && !AttemptedPrimary(now[|history|..], spec)
                ==> StickyOf(now, spec) == StickyOf(history, spec))
  {
    var now := Begin(history, requested) + calls;
    assert now[|history|..] == [Begun(requested)] + calls;
    assert forall e :: e in calls ==> e in now[|history|..];
    QuietKeepsSticky(history, [Begun(requested)], spec);
    if StickyOf(history, spec).Some? && !AttemptedPrimary(now[|history|..], spec) {
      UntriedStays(Begin(history, requested), calls, requested, spec);
    }
  }

  function Look<V>(entries: map<string, V>, key: string): Option<V> {
    if key in entries then Some(entries[key]) else None
  }

  /** The map holds what the history says of every spec. */
  ghost predicate Remembers(entries: map<string, StickyState>, history: seq<Event>) {
    forall spec :: Look(entries, spec) == StickyOf(history, spec)
  }

  // ------------------------------------------------------------ the router

  datatype Op =
    | Chat(tables: Tables, spec: string, planned: real, turns: nat -> Turn)
    | ResetHealth(tables: Tables, spec: string, planned: real)
    | ClearSticky(spec: string)

  /** The registry's provider names hold no slash. */
  ghost predicate PlainOp(op: Op) {
    !op.ClearSticky? ==> PlainProviderNames(op.tables)
  }

  class ModelRouter {
    const tracker: ModelHealthTracker
    var sticky: map<string, StickyState>
    ghost var history: seq<Event>

    constructor ()
      ensures Valid() && fresh(tracker) && sticky == map[] && history == []
    {
      tracker := new ModelHealthTracker();
      sticky, history := map[], [];
    }

    /** Both maps hold what has happened, and no candidate was called while disabled. */
    ghost predicate Valid()
      reads this, tracker
    {
      tracker.Tracks(history) && Disciplined(history) && Remembers(sticky, history)
    }

    function StickyPlan(spec: string): Option<Sticky>
      reads this
    {
      if spec in sticky then Some(Sticky(sticky[spec].spec, sticky[spec].nextPrimaryRetryAt)) else None
    }

    lemma {:induction false} PlannedIs(spec: string)
      requires Remembers(sticky, history)
      ensures StickyPlan(spec) == Planned(history, spec)
    {
      assert Look(sticky, spec) == StickyOf(history, spec);
    }

    /** Bookkeeping of the sticky failover after an answer. */
    method NoteAnswer(requested: string, served: string, attemptedPrimary: bool, at: real,
                      ghost before: seq<Event>, ghost e: Event)
      requires Remembers(sticky, before) && IsAnswer(e, requested, served, at)
      requires served != requested ==> attemptedPrimary == Trying(before, requested)
      modifies this`sticky
      ensures Remembers(sticky, before + [e])
    {
      AnswerOnly(before, e, requested);
      var entry := requested in sticky;
      assert Look(sticky, requested) == StickyOf(before, requested);
      if served == requested && entry {
        sticky := sticky - {requested};
      }
      if served != requested && '/' in requested {
        if attemptedPrimary || !entry {
          SetNextWindow(requested, served, at, before);
        }
      }
      assert forall spec :: spec != requested ==> Look(sticky, spec) == old(Look(sticky, spec));
    }

    method SetNextWindow(requested: string, served: string, at: real, ghost before: seq<Event>)
      requires Remembers(sticky, before)
      modifies this`sticky
      ensures var delay := StickyDelay(Windows(before, requested));
              sticky == old(sticky)[requested := StickyState(served, delay, at + delay)]
    {
      assert Look(sticky, requested) == StickyOf(before, requested);
      KthWindow(before, requested);
      var previous := if requested in sticky then sticky[requested].retryDelay else 0.0;
      NextStickyDelay(Windows(before, requested), previous);
      var delay := Min(if previous > 0.0 then previous * 1.5 else 30000.0, 1200000.0);
      sticky := sticky[requested := StickyState(served, delay, at + delay)];
    }

    /** One candidate's turn: passed over without a call, or called and its health adjusted. */
    method Consider(requested: string, c: Candidate, turn: Turn) returns (called: bool, barred: bool, rejected: bool)
      requires tracker.Tracks(history) && Disciplined(history)
      modifies this`history, tracker
      ensures tracker.Tracks(history) && Disciplined(history)
      ensures called == Usable(old(history), c, turn)
      ensures barred == Barred(old(history), c, turn)
      ensures rejected == Rejected(old(history), c, turn)
      ensures history == if called then old(history) + [Called(requested, c.spec, c.healthKey, turn)] else old(history)
    {
      var health := tracker.GetHealth(c.healthKey, history);
      if health.disabledUntil > turn.now {
        return false, false, false;
      }
      if !turn.gate.Ready? {
        return false, turn.gate.NoImages?, turn.gate.KeyRejected?;
      }
      ghost var e := Called(requested, c.spec, c.healthKey, turn);
      DisciplinedSnoc(history, e);
      match turn.outcome {
        case Answered(_) => tracker.ResetHealth(c.healthKey, history, e);
        case Refused(_) => tracker.RefusedKeepsHealth(history, e);
        case Failed(_) => tracker.RecordFailure(c.healthKey, turn.after, history, e);
      }
      history := history + [e];
      return true, false, false;
    }

    /**
      One chat call: candidates are tried in chain order, those disabled or unavailable are
      passed over, a failure disables and moves on, an answer or a refusal ends the call.
     */
    method Chat(t: Tables, requested: string, planned: real, turns: nat -> Turn)
      returns (result: ChatResult, ghost chain: seq<Candidate>, stop: nat)
      requires Valid() && PlainProviderNames(t)
      modifies this, tracker
      ensures Valid()
      ensures ChainFor(t, requested, StickyFirst(t, requested, Planned(old(history), requested), planned), chain)
      ensures Ends(Begin(old(history), requested), chain, turns, stop, result)
      ensures history == Begin(old(history), requested) +
                         CallsOf(Begin(old(history), requested), requested, chain, turns, stop)
    {
      PlannedIs(requested);
      var candidates := BuildCandidateChain(t, requested, StickyPlan(requested), planned);
      chain := candidates;
      BegunKeeps(history, requested);
      history := Begin(history, requested);
      ghost var begun := history;
      var attemptedPrimary;
      result, attemptedPrimary, stop := Walk(requested, candidates, turns);
      Settle(requested, candidates, turns, stop, result, attemptedPrimary, begun);
    }

    /** The sticky failover after a walk: only an answer touches it. */
    method Settle(requested: string, chain: seq<Candidate>, turns: nat -> Turn, stop: nat, result: ChatResult,
                  attemptedPrimary: bool, ghost begun: seq<Event>)
      requires Remembers(sticky, begun) && begun != [] && begun[|begun| - 1].Begun?
      requires Ends(begun, chain, turns, stop, result)
      requires attemptedPrimary == AttemptedPrimary(CallsOf(begun, requested, chain, turns, stop), requested)
      modifies this`sticky
      ensures Remembers(sticky, begun + CallsOf(begun, requested, chain, turns, stop))
    {
      LastCallAnswers(begun, requested, chain, turns, stop, result);
      if result.Response? {
        ghost var calls := CallsOf(begun, requested, chain, turns, stop - 1);
        ghost var e := Called(requested, chain[stop - 1].spec, chain[stop - 1].healthKey, turns(stop - 1));
        QuietIsRemembered(sticky, begun, calls);
        TryingSinceBegun(begun, calls, requested);
        PrimarySnoc(calls, e, requested);
        AppendAssoc(begun, calls, [e]);
        NoteAnswer(requested, result.spec, attemptedPrimary, turns(stop - 1).after, begun + calls, e);
      } else {
        QuietIsRemembered(sticky, begun, CallsOf(begun, requested, chain, turns, stop));
      }
    }

    /** The walk along a chain, up to the first answer or refusal. */
    method Walk(requested: string, chain: seq<Candidate>, turns: nat -> Turn)
      returns (result: ChatResult, attemptedPrimary: bool, stop: nat)
      requires tracker.Tracks(history) && Disciplined(history) && DistinctKeys(chain)
      modifies this`history, tracker
      ensures tracker.Tracks(history) && Disciplined(history)
      ensures Ends(old(history), chain, turns, stop, result)
      ensures history == old(history) + CallsOf(old(history), requested, chain, turns, stop)
      ensures attemptedPrimary == AttemptedPrimary(CallsOf(old(history), requested, chain, turns, stop), requested)
    {
      var lastError: Option<Error> := None;
      attemptedPrimary := false;
      stop := 0;
      ghost var before := history;
      assert before + [] == before;
      while stop < |chain|
        invariant 0 <= stop <= |chain|
        invariant tracker.Tracks(history) && Disciplined(history)
        invariant Walked(before, history, requested, chain, turns, stop, attemptedPrimary)
        invariant Unsettled(before, chain, turns, stop, lastError)
      {
        var c, turn := chain[stop], turns(stop);
        WalkedStep(before, history, requested, chain, turns, stop, attemptedPrimary);
        SettleStep(before, chain, turns, stop, lastError);
        var called, barred, rejected := Consider(requested, c, turn);
        stop := stop + 1;
        if rejected {
          return Propagated(turn.gate.error), attemptedPrimary, stop;
        }
        if barred {
          lastError := Some(NoImageSupport);
        }
        if called {
          if c.spec == requested {
            attemptedPrimary := true;
          }
          match turn.outcome {
            case Answered(text) => return Response(c.spec, text), attemptedPrimary, stop;
            case Refused(error) => return Propagated(error), attemptedPrimary, stop;
            case Failed(error) => lastError := Some(error);
          }
        }
      }
      result := Exhausted(lastError);
    }

    method ResetModelHealth(t: Tables, spec: string, planned: real)
      requires Valid() && PlainProviderNames(t)
      modifies this`history, tracker
      ensures Valid()
      ensures exists chain ::
                && ChainFor(t, spec, StickyFirst(t, spec, Planned(old(history), spec), planned), chain)
                && history == old(history) + [Reset(Keys(chain))]
    {
      PlannedIs(spec);
      var chain := BuildCandidateChain(t, spec, StickyPlan(spec), planned);
      tracker.ResetModelHealth(chain, history);
      DisciplinedSnoc(history, Reset(Keys(chain)));
      QuietIsRemembered(sticky, history, [Reset(Keys(chain))]);
      history := history + [Reset(Keys(chain))];
    }

    method ClearStickyFailover(spec: string)
      requires Valid()
      modifies this`sticky, this`history
      ensures Valid() && sticky == old(sticky) - {spec} && history == old(history) + [Cleared(spec)]
    {
      ghost var longer := history + [Cleared(spec)];
      assert longer[..|history|] == history;
      DisciplinedSnoc(history, Cleared(spec));
      assert forall s :: Look(sticky, s) == StickyOf(history, s);
      sticky, history := sticky - {spec}, longer;
      assert forall s :: s != spec ==> Look(sticky, s) == old(Look(sticky, s));
    }

    method Do(op: Op, ghost watched: string)
      requires Valid() && PlainOp(op)
      modifies this, tracker
      ensures Valid() && old(history) <= history && Happens(op, history[|old(history)|..])
      ensures op != ClearSticky(watched) ==> Stays(old(sticky), sticky, history[|old(history)|..], watched)
    {
      assert Look(sticky, watched) == StickyOf(history, watched);
      match op {
        case Chat(t, spec, planned, turns) =>
          var result, chain, stop := Chat(t, spec, planned, turns);
          ghost var begun := Begin(old(history), spec);
          LastCallAnswers(begun, spec, chain, turns, stop, result);
          ChatStays(old(history), CallsOf(begun, spec, chain, turns, stop), spec, watched);
        case ResetHealth(t, spec, planned) =>
          ResetModelHealth(t, spec, planned);
        case ClearSticky(spec) =>
          ClearStickyFailover(spec);
      }
      assert Look(sticky, watched) == StickyOf(history, watched);
    }

    /** The first n operations are done, from this history and these sticky failovers on. */
    ghost predicate RanSo(ops: seq<Op>, n: nat, watched: string, h0: seq<Event>, s0: map<string, StickyState>)
      requires n <= |ops|
      reads this, tracker
    {
      && Valid() && h0 <= history && Happened(ops[..n], history[|h0|..])
      && (ClearSticky(watched) !in ops ==> Stays(s0, sticky, history[|h0|..], watched))
    }

    method DoNext(ops: seq<Op>, i: nat, ghost watched: string, ghost h0: seq<Event>,
                  ghost s0: map<string, StickyState>)
      requires i < |ops| && PlainOp(ops[i]) && RanSo(ops, i, watched, h0, s0)
      modifies this, tracker
      ensures RanSo(ops, i + 1, watched, h0, s0)
    {
      ghost var h1 := history;
      Do(ops[i], watched);
      HappenedNext(ops, i, h0, h1, history);
      TriedLater(h0, h1, history, history[|h1|..], watched);
    }

    /**
      Any run of calls, from any earlier one. A spec is sticky iff a failover answered for it
      and it has not recovered since; its running window is the k-th of its series, k being the
      windows set since then; and it stays as it is as long as no call tries its primary.
     */
    method Run(ops: seq<Op>, ghost watched: string)
      requires Valid() && forall op :: op in ops ==> PlainOp(op)
      modifies this, tracker
      ensures Valid() && old(history) <= history && Happened(ops, history[|old(history)|..])
      ensures watched in sticky <==> FailedOver(history, watched)
      ensures watched in sticky ==>
                && Windows(history, watched) > 0
                && sticky[watched].retryDelay == StickyDelay(Windows(history, watched) - 1)
      ensures ClearSticky(watched) !in ops ==>
                Stays(old(sticky), sticky, history[|old(history)|..], watched)
    {
      for i := 0 to |ops|
        invariant RanSo(ops, i, watched, old(history), old(sticky))
      {
        DoNext(ops, i, watched, old(history), old(sticky));
      }
      assert ops[..|ops|] == ops;
      assert Look(sticky, watched) == StickyOf(history, watched);
      StickyIffFailedOver(history, watched);
      KthWindow(history, watched);
    }
  }

  /** What an operation adds to the history: a chat call begins and calls candidates for its spec. */
  ghost predicate Happens(op: Op, events: seq<Event>) {
    match op
    case Chat(_, spec, _, _) => events != [] && events[0] == Begun(spec) && CallsFor(events[1..], spec)
    case ResetHealth(_, _, _) => |events| == 1 && events[0].Reset?
    case ClearSticky(spec) => events == [Cleared(spec)]
  }

  /** The operations happened one after another. */
  ghost predicate Happened(ops: seq<Op>, events: seq<Event>) {
    if ops == [] then events == []
    else
      exists k :: 0 <= k <= |events| && Happened(ops[..|ops| - 1], events[..k]) && Happens(ops[|ops| - 1], events[k..])
  }

  lemma {:induction false} HappenedNext(ops: seq<Op>, i: nat, h0: seq<Event>, h1: seq<Event>, h2: seq<Event>)
    requires i < |ops| && h0 <= h1 <= h2 && Happened(ops[..i], h1[|h0|..]) && Happens(ops[i], h2[|h1|..])
    ensures Happened(ops[..i + 1], h2[|h0|..])
  {
    var events, k := h2[|h0|..], |h1| - |h0|;
    assert ops[..i + 1][..i] == ops[..i];
    assert events[..k] == h1[|h0|..] && events[k..] == h2[|h1|..];
  }

  /** The sticky failover of a spec is untouched if its primary was not tried meanwhile. */
  ghost predicate Stays(was: map<string, StickyState>, now: map<string, StickyState>, calls: seq<Event>, spec: string) {
    spec in was && !AttemptedPrimary(calls, spec) ==> spec in now && now[spec] == was[spec]
  }

  /** The sticky failover a chain is planned with, as the history has it. */
  ghost function Planned(history: seq<Event>, spec: string): Option<Sticky> {
    match StickyOf(history, spec)
    case None => None
    case Some(entry) => Some(Sticky(entry.spec, entry.nextPrimaryRetryAt))
  }

  ghost function Begin(history: seq<Event>, requested: string): seq<Event> {
    history + [Begun(requested)]
  }

  ghost predicate IsAnswer(e: Event, requested: string, served: string, at: real) {
    && e.Called? && e.requested == requested && e.spec == served
    && e.turn.outcome.Answered? && e.turn.after == at
  }

  /** An answer matters to the spec it was requested for and to no other. */
  lemma {:induction false} AnswerOnly(history: seq<Event>, e: Event, requested: string)
    requires e.Called? && e.requested == requested
    ensures (history + [e])[..|history|] == history
    ensures forall spec :: spec != requested ==> StickyOf(history + [e], spec) == StickyOf(history, spec)
  {
    assert (history + [e])[..|history|] == history;
  }

  lemma {:induction false} QuietIsRemembered(entries: map<string, StickyState>, history: seq<Event>, events: seq<Event>)
    requires Remembers(entries, history) && forall spec :: Quiet(events, spec)
    ensures Remembers(entries, history + events)
  {
    forall spec
      ensures Look(entries, spec) == StickyOf(history + events, spec)
    {
      QuietKeepsSticky(history, events, spec);
    }
  }

  /** That a chat call begins changes nothing yet. */
  lemma {:induction false} BegunKeeps(history: seq<Event>, requested: string)
    requires Disciplined(history)
    ensures Disciplined(Begin(history, requested))
    ensures forall key :: HealthOf(Begin(history, requested), key) == HealthOf(history, key)
    ensures forall spec :: StickyOf(Begin(history, requested), spec) == StickyOf(history, spec)
  {
    var e := Begun(requested);
    DisciplinedSnoc(history, e);
    assert (history + [e])[..|history|] == history;
  }

  /** Of the calls of one chat call only the last can be answered, and it is iff the chat call is. */
  lemma {:induction false} LastCallAnswers(history: seq<Event>, requested: string, chain: seq<Candidate>,
                                           turns: nat -> Turn, stop: nat, result: ChatResult)
    requires Ends(history, chain, turns, stop, result)
    ensures CallsFor(CallsOf(history, requested, chain, turns, stop), requested)
    ensures var n := if result.Response? then stop - 1 else stop;
            forall spec :: Quiet(CallsOf(history, requested, chain, turns, n), spec)
    ensures result.Response? ==>
              var e := Called(requested, result.spec, chain[stop - 1].healthKey, turns(stop - 1));
              && CallsOf(history, requested, chain, turns, stop)
                 == CallsOf(history, requested, chain, turns, stop - 1) + [e]
              && IsAnswer(e, requested, result.spec, turns(stop - 1).after)
  {
    var n := if result.Response? then stop - 1 else stop;
    forall e | e in CallsOf(history, requested, chain, turns, n)
      ensures e.Called? && e.requested == requested && !e.turn.outcome.Answered?
    {
      CallsAreOfTheChain(history, requested, chain, turns, n, e);
      var i :| 0 <= i < n && Usable(history, chain[i], turns(i))
               && e == Called(requested, chain[i].spec, chain[i].healthKey, turns(i));
      assert i < stop - 1 ==> PassedOver(history, chain[i], turns(i));
    }
  }

  lemma {:induction false} NextStickyDelay(k: nat, previous: real)
    requires previous == if k == 0 then 0.0 else StickyDelay(k - 1)
    ensures Min(if previous > 0.0 then previous * 1.5 else 30000.0, 1200000.0) == StickyDelay(k)
  {
    if k > 0 {
      DelaysArePositive(k - 1);
      DelayStep(30000.0, 1200000.0, k - 1);
    }
  }

  lemma {:induction false} DelaysArePositive(k: nat)
    ensures StickyDelay(k) > 0.0 && Power(k) > 0.0
  {
    if k > 0 {
      DelaysArePositive(k - 1);
    }
  }

  lemma {:induction false} PrimarySnoc(calls: seq<Event>, e: Event, requested: string)
    requires e.Called? && e.requested == requested
    ensures AttemptedPrimary(calls + [e], requested) <==> AttemptedPrimary(calls, requested) || e.spec == requested
  {
    assert e in calls + [e];
    assert forall x :: x in calls ==> x in calls + [e];
  }

  lemma {:induction false} TriedLater(h0: seq<Event>, h1: seq<Event>, h2: seq<Event>, calls: seq<Event>, spec: string)
    requires h0 <= h1 && h2 == h1 + calls
    ensures h0 <= h2
    ensures AttemptedPrimary(h2[|h0|..], spec) <==> AttemptedPrimary(h1[|h0|..], spec) || AttemptedPrimary(calls, spec)
  {
    assert h2[|h0|..] == h1[|h0|..] + calls;
  }
}
