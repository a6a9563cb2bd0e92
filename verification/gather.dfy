/** gather_limit: coroutines behind a semaphore, under every schedule of the event loop. */
module Gather {
  import opened Wrappers

  datatype Outcome<R> = Returned(r: R) | Raised(error: string)

  /** A coroutine waits for the semaphore, runs inside it, and ends. */
  datatype Status<R> = Waiting | Inside | Ended(outcome: Outcome<R>)

  datatype State<R> = State(permits: nat, status: seq<Status<R>>, firstError: Option<string>)

  /** The event loop lets a coroutine in, or one inside comes to its end. */
  datatype Event<R> = Enter(i: nat) | Leave(i: nat, outcome: Outcome<R>)

  /** max(1, limit or default): absent and zero both mean the default. */
  function EffectiveLimit(limit: Option<int>, default: int): (n: nat)
    ensures n >= 1
    ensures limit.Some? && limit.value > 0 ==> n == limit.value
    ensures limit.Some? && limit.value < 0 ==> n == 1
    ensures (limit.None? || limit.value == 0) && default >= 1 ==> n == default
  {
    var wanted := if limit.Some? && limit.value != 0 then limit.value else default;
    if wanted < 1 then 1 else wanted
  }

  function Start<R>(n: nat, limit: nat): State<R> {
    State(limit, seq(n, _ => Waiting), None)
  }

  predicate Enabled<R>(s: State<R>, e: Event<R>) {
    match e
    case Enter(i) => i < |s.status| && s.status[i].Waiting? && s.permits > 0
    case Leave(i, _) => i < |s.status| && s.status[i].Inside?
  }

  function Step<R>(s: State<R>, e: Event<R>): State<R>
    requires Enabled(s, e)
  {
    match e
    case Enter(i) => s.(permits := s.permits - 1, status := s.status[i := Inside])
    case Leave(i, outcome) =>
      s.(permits := s.permits + 1, status := s.status[i := Ended(outcome)],
         firstError := if s.firstError.None? && outcome.Raised? then Some(outcome.error) else s.firstError)
  }

  predicate EnabledRun<R>(s: State<R>, events: seq<Event<R>>)
    decreases |events|
  {
    events == [] || (Enabled(s, events[0]) && EnabledRun(Step(s, events[0]), events[1..]))
  }

  function Run<R>(s: State<R>, events: seq<Event<R>>): State<R>
    requires EnabledRun(s, events)
    decreases |events|
  {
    if events == [] then s else Run(Step(s, events[0]), events[1..])
  }

  predicate Complete<R>(s: State<R>) {
    forall i :: 0 <= i < |s.status| ==> s.status[i].Ended?
  }

  /** What gather hands to its caller: the first error to happen, or all results in order. */
  function GatherOutcome<R>(s: State<R>): Outcome<seq<R>>
    requires Complete(s) && (s.firstError.None? ==> forall i :: 0 <= i < |s.status| ==> s.status[i].outcome.Returned?)
  {
    if s.firstError.Some? then Raised(s.firstError.value)
    else Returned(seq(|s.status|, i requires 0 <= i < |s.status| => s.status[i].outcome.r))
  }

  // --- how many are inside ---

  function CountInside<R>(status: seq<Status<R>>): nat {
    if status == [] then 0 else (if status[0].Inside? then 1 else 0) + CountInside(status[1..])
  }

  /** Steps still to come: two for a waiting coroutine, one for one inside. */
  function Remaining<R>(status: seq<Status<R>>): nat {
    if status == [] then 0
    else RemainingOf(status[0]) + Remaining(status[1..])
  }

  function RemainingOf<R>(x: Status<R>): nat {
    match x case Waiting => 2 case Inside => 1 case Ended(_) => 0
  }

  lemma {:induction false} CountsUpdate<R>(status: seq<Status<R>>, i: nat, x: Status<R>)
    requires i < |status|
    ensures CountInside(status[i := x]) + (if status[i].Inside? then 1 else 0) == CountInside(status) + (if x.Inside? then 1 else 0)
    ensures Remaining(status[i := x]) + RemainingOf(status[i]) == Remaining(status) + RemainingOf(x)
  {
    var updated := status[i := x];
    if i == 0 {
      assert updated[1..] == status[1..];
    } else {
      assert updated[1..] == status[1..][i - 1 := x];
      CountsUpdate(status[1..], i - 1, x);
    }
  }

  lemma {:induction false} CountsStart<R>(n: nat)
    ensures CountInside<R>(seq(n, _ => Waiting)) == 0
    ensures Remaining<R>(seq(n, _ => Waiting)) == 2 * n
  {
    if n > 0 {
      assert seq<Status<R>>(n, _ => Waiting)[1..] == seq(n - 1, _ => Waiting);
      CountsStart<R>(n - 1);
    }
  }

  ghost predicate Inv<R>(s: State<R>, limit: nat) {
    && s.permits + CountInside(s.status) == limit
    && (s.firstError.Some? <==> exists i :: 0 <= i < |s.status| && s.status[i].Ended? && s.status[i].outcome.Raised?)
  }

  lemma StepKeepsInv<R>(s: State<R>, e: Event<R>, limit: nat)
    requires Inv(s, limit) && Enabled(s, e)
    ensures Inv(Step(s, e), limit)
    ensures Remaining(Step(s, e).status) + 1 == Remaining(s.status)
  {
    var t := Step(s, e);
    match e
    case Enter(i) =>
      CountsUpdate(s.status, i, Inside);
      if s.firstError.Some? {
        var j :| 0 <= j < |s.status| && s.status[j].Ended? && s.status[j].outcome.Raised?;
        assert t.status[j] == s.status[j];
      }
    case Leave(i, outcome) =>
      CountsUpdate(s.status, i, Ended(outcome));
      if s.firstError.Some? {
        var j :| 0 <= j < |s.status| && s.status[j].Ended? && s.status[j].outcome.Raised?;
        assert t.status[j] == s.status[j];
      } else if outcome.Raised? {
        assert t.status[i].Ended? && t.status[i].outcome.Raised?;
      }
  }

  lemma {:induction false} RunKeepsInv<R>(s: State<R>, events: seq<Event<R>>, limit: nat)
    requires Inv(s, limit) && EnabledRun(s, events)
    ensures Inv(Run(s, events), limit)
    ensures Remaining(Run(s, events).status) + |events| == Remaining(s.status)
    ensures |Run(s, events).status| == |s.status|
    decreases |events|
  {
    if events != [] {
      StepKeepsInv(s, events[0], limit);
      RunKeepsInv(Step(s, events[0]), events[1..], limit);
    }
  }

  lemma StartInv<R>(n: nat, limit: nat)
    ensures Inv(Start<R>(n, limit), limit)
  {
    CountsStart<R>(n);
  }

  // --- main results ---

  /** At no moment of any schedule are more than limit coroutines inside, and no permit is lost. */
  lemma AtMostLimitInside<R>(n: nat, limit: nat, events: seq<Event<R>>)
    requires EnabledRun(Start<R>(n, limit), events)
    ensures CountInside(Run(Start<R>(n, limit), events).status) <= limit
    ensures CountInside(Run(Start<R>(n, limit), events).status) + Run(Start<R>(n, limit), events).permits == limit
  {
    StartInv<R>(n, limit);
    RunKeepsInv(Start<R>(n, limit), events, limit);
  }

  lemma {:induction false} NoneRemaining<R>(status: seq<Status<R>>)
    ensures Remaining(status) == 0 <==> forall i :: 0 <= i < |status| ==> status[i].Ended?
  {
    if status != [] {
      NoneRemaining(status[1..]);
      assert forall i :: 0 <= i < |status| - 1 ==> status[1..][i] == status[i + 1];
      assert forall i :: 0 < i < |status| ==> status[i] == status[1..][i - 1];
    }
  }

  lemma {:induction false} SomeInside<R>(status: seq<Status<R>>) returns (i: nat)
    requires CountInside(status) > 0
    ensures i < |status| && status[i].Inside?
  {
    if status[0].Inside? {
      i := 0;
    } else {
      i := SomeInside(status[1..]);
      i := i + 1;
    }
  }

  /** Every schedule ends after exactly two events for each coroutine, and until then some
      coroutine can move: the semaphore never deadlocks. */
  lemma {:induction false} SchedulesEnd<R>(n: nat, limit: nat, events: seq<Event<R>>)
    requires limit >= 1 && EnabledRun(Start<R>(n, limit), events)
    ensures |events| <= 2 * n
    ensures |events| == 2 * n <==> Complete(Run(Start<R>(n, limit), events))
    ensures |events| < 2 * n ==> exists e: Event<R> :: Enabled(Run(Start<R>(n, limit), events), e)
  {
    StartInv<R>(n, limit);
    CountsStart<R>(n);
    RunKeepsInv(Start<R>(n, limit), events, limit);
    var s := Run(Start<R>(n, limit), events);
    NoneRemaining(s.status);
    if |events| < 2 * n {
      if CountInside(s.status) > 0 {
        var i := SomeInside(s.status);
        assert Enabled(s, Event<R>.Leave(i, Raised("")));
      } else {
        var i :| 0 <= i < |s.status| && !s.status[i].Ended?;
        if s.status[i].Inside? {
          InsideCounts(s.status, i);
        }
        assert Enabled(s, Event<R>.Enter(i));
      }
    }
  }

  lemma {:induction false} InsideCounts<R>(status: seq<Status<R>>, i: nat)
    requires i < |status| && status[i].Inside?
    ensures CountInside(status) > 0
  {
    if i > 0 { InsideCounts(status[1..], i - 1); }
  }

  /** The schedule lets coroutine i end with this outcome. */
  ghost predicate EndsWith<R>(events: seq<Event<R>>, i: nat, outcome: Outcome<R>) {
    exists k :: 0 <= k < |events| && events[k] == Leave(i, outcome)
  }

  /** The slot of a coroutine holds the outcome that it ended with, whenever that was. */
  lemma {:induction false} SlotHoldsOwnOutcome<R>(s: State<R>, events: seq<Event<R>>, i: nat)
    requires EnabledRun(s, events) && i < |s.status|
    ensures |Run(s, events).status| == |s.status|
    ensures s.status[i].Ended? ==> Run(s, events).status[i] == s.status[i]
    ensures !s.status[i].Ended? && Run(s, events).status[i].Ended? ==> EndsWith(events, i, Run(s, events).status[i].outcome)
    decreases |events|
  {
    if events != [] {
      var rest := events[1..];
      SlotHoldsOwnOutcome(Step(s, events[0]), rest, i);
      var final := Run(s, events).status[i];
      if !s.status[i].Ended? && final.Ended? {
        if events[0].Leave? && events[0].i == i {
          assert events[0] == Leave(i, final.outcome);
        } else {
          var k :| 0 <= k < |rest| && rest[k] == Leave(i, final.outcome);
          assert events[k + 1] == Leave(i, final.outcome);
        }
      }
    }
  }

  /** Whatever the schedule, a complete gather either raises an error that some coroutine
      raised, or returns as many results as coroutines, the i-th being what coroutine i
      returned. It raises exactly when some coroutine did. */
  lemma ResultsInInputOrder<R>(n: nat, limit: nat, events: seq<Event<R>>)
    requires EnabledRun(Start<R>(n, limit), events) && Complete(Run(Start<R>(n, limit), events))
    ensures var s := Run(Start<R>(n, limit), events);
      && |s.status| == n
      && (s.firstError.None? ==> forall i :: 0 <= i < n ==> s.status[i].outcome.Returned?)
      && (GatherOutcome(s).Returned? ==>
            |GatherOutcome(s).r| == n && forall i :: 0 <= i < n ==> EndsWith(events, i, Returned(GatherOutcome(s).r[i])))
      && (GatherOutcome(s).Raised? <==> exists i :: 0 <= i < n && s.status[i].outcome.Raised?)
  {
    var start := Start<R>(n, limit);
    StartInv<R>(n, limit);
    RunKeepsInv(start, events, limit);
    var s := Run(start, events);
    forall i | 0 <= i < n ensures EndsWith(events, i, s.status[i].outcome) {
      SlotHoldsOwnOutcome(start, events, i);
    }
    if s.firstError.None? {
      assert forall i :: 0 <= i < n ==> s.status[i].outcome.Returned?;
      assert forall i :: 0 <= i < n ==> EndsWith(events, i, Returned(GatherOutcome(s).r[i]));
    }
  }

  /** The error that gather raises is that of the coroutine that failed first. */
  lemma {:induction false} FirstErrorWins<R>(s: State<R>, events: seq<Event<R>>)
    requires EnabledRun(s, events)
    ensures s.firstError.Some? ==> Run(s, events).firstError == s.firstError
    ensures s.firstError.None? && Run(s, events).firstError.Some? ==>
      exists k :: 0 <= k < |events| && Fails(events[k]) && events[k].outcome.error == Run(s, events).firstError.value
                  && forall j :: 0 <= j < k ==> !Fails(events[j])
    ensures Run(s, events).firstError.None? ==> forall e <- events :: !Fails(e)
    decreases |events|
  {
    if events != [] {
      var rest := events[1..];
      FirstErrorWins(Step(s, events[0]), rest);
      hide Run, EnabledRun;
      if s.firstError.None? && !Fails(events[0]) {
        assert forall k :: 0 <= k < |rest| ==> events[k + 1] == rest[k];
        assert forall k :: 0 < k < |events| ==> events[k] == rest[k - 1];
      }
    }
  }

  predicate Fails<R>(e: Event<R>) {
    e.Leave? && e.outcome.Raised?
  }

  /** Coroutine i always ends with the i-th of these outcomes. */
  ghost predicate FollowsOracle<R>(events: seq<Event<R>>, oracle: seq<Outcome<R>>) {
    forall k :: 0 <= k < |events| && events[k].Leave? && events[k].i < |oracle| ==> events[k].outcome == oracle[events[k].i]
  }

  /** When no coroutine raises, the results are independent of limit and schedule. */
  lemma ScheduleIndependent<R>(oracle: seq<R>, limit: nat, events: seq<Event<R>>)
    requires var outcomes := seq(|oracle|, i requires 0 <= i < |oracle| => Returned(oracle[i]));
      EnabledRun(Start<R>(|oracle|, limit), events) && Complete(Run(Start<R>(|oracle|, limit), events))
      && FollowsOracle(events, outcomes)
    ensures var s := Run(Start<R>(|oracle|, limit), events);
      (s.firstError.None? ==> forall i :: 0 <= i < |s.status| ==> s.status[i].outcome.Returned?)
      && GatherOutcome(s) == Returned(oracle)
  {
    var n := |oracle|;
    ResultsInInputOrder(n, limit, events);
    var s := Run(Start<R>(n, limit), events);
    forall i | 0 <= i < n ensures s.status[i].outcome == Returned(oracle[i]) {
      SlotHoldsOwnOutcome(Start<R>(n, limit), events, i);
      var k :| 0 <= k < |events| && events[k] == Leave(i, s.status[i].outcome);
      assert events[k].outcome == Returned(oracle[i]);
    }
    assert GatherOutcome(s).r == oracle;
  }
}
