/** The Python side of the bridge: numbered calls, the map of pending futures, and the ways
    in which a future comes to an end. */
module Client {
  import opened Numerals
  import opened JsonText

  datatype FutureState = Waiting | Resolved(v: Json) | ToolFailed(payload: Json) | Failed(text: string) | Cancelled

  /** The error member of a response: absent or falsy, a dict, or some other truthy value. */
  datatype ErrorMember = NoError | DictError(payload: Json) | OtherError(text: string)

  /** A line on stdin after json.loads; broken covers bad JSON and values that are no dict. */
  datatype Response = Response(id: string, error: ErrorMember, value: Json) | NoId | Broken(text: string)

  /** The pending map goes from call ids to call numbers; future n - 1 is that of call n. */
  datatype State = State(callId: nat, pending: map<string, nat>, futures: seq<FutureState>, reading: bool)

  const START := State(0, map[], [], true)

  function CallId(n: nat): string {
    "call_" + Decimal(n)
  }

  lemma CallIdInjective(m: nat, n: nat)
    requires CallId(m) == CallId(n)
    ensures m == n
  {
    assert CallId(m)[5..] == Decimal(m) && CallId(n)[5..] == Decimal(n);
    DecimalInjective(m, n);
  }

  lemma CallIdsDistinct(m: nat)
    ensures forall n: nat :: CallId(n) == CallId(m) ==> n == m
  {
    forall n: nat | CallId(n) == CallId(m) ensures n == m {
      CallIdInjective(n, m);
    }
  }

  // --- the operations ---

  /** set_result and set_exception behind a done() check. */
  function SettleFuture(futures: seq<FutureState>, n: nat, outcome: FutureState): seq<FutureState> {
    if 1 <= n <= |futures| && futures[n - 1].Waiting? then futures[n - 1 := outcome] else futures
  }

  /** The synchronous part of call: the number, the frame, the future and its registration. */
  function StartCall(s: State): State {
    s.(callId := s.callId + 1, futures := s.futures + [Waiting], pending := s.pending[CallId(s.callId + 1) := s.callId + 1])
  }

  function OutcomeOf(r: Response): FutureState
    requires r.Response?
  {
    match r.error
    case NoError => Resolved(r.value)
    case DictError(payload) => ToolFailed(payload)
    case OtherError(text) => Failed(text)
  }

  function FailAll(futures: seq<FutureState>, ids: set<string>, text: string): (failed: seq<FutureState>)
    ensures |failed| == |futures|
  {
    seq(|futures|, i requires 0 <= i < |futures| =>
      if CallId(i + 1) in ids && futures[i].Waiting? then Failed(text) else futures[i])
  }

  /** One turn of the reader loop. */
  function HandleResponse(s: State, r: Response): State {
    match r
    case Response(id, _, _) =>
      if id in s.pending then
        s.(futures := SettleFuture(s.futures, s.pending[id], OutcomeOf(r)), pending := s.pending - {id})
      else s
    case NoId => s
    case Broken(text) => FailPending(s, text)
  }

  /** The reader dies: every pending future fails and the map is cleared. */
  function FailPending(s: State, text: string): State {
    s.(futures := FailAll(s.futures, s.pending.Keys, text), pending := map[], reading := false)
  }

  /** A timeout fires or the caller is cancelled: the future is cancelled, its entry stays. */
  function CancelFuture(s: State, n: nat): State {
    s.(futures := SettleFuture(s.futures, n, Cancelled))
  }

  /** The handler of the timeout, some turns later: the entry is removed if still there. */
  function ForgetCall(s: State, n: nat): State {
    s.(pending := s.pending - {CallId(n)})
  }

  // --- what they keep ---

  ghost predicate Valid(s: State) {
    && |s.futures| == s.callId
    && forall id <- s.pending :: 1 <= s.pending[id] <= s.callId && id == CallId(s.pending[id])
  }

  lemma StartCallFresh(s: State)
    requires Valid(s)
    ensures CallId(s.callId + 1) !in s.pending
    ensures Valid(StartCall(s))
  {
    var id := CallId(s.callId + 1);
    if id in s.pending {
      CallIdInjective(s.pending[id], s.callId + 1);
    }
  }

  lemma HandleKeepsValid(s: State, r: Response)
    requires Valid(s)
    ensures Valid(HandleResponse(s, r))
  {
  }

  /** A response reaches the future of the call whose id it names, if that one is still waiting,
      and no other: without an error it resolves the future with its value, with a dict for an
      error it fails it with that payload, and with any other error it fails it with the text. */
  lemma ResponseReachesItsCall(s: State, r: Response, n: nat)
    requires Valid(s) && r.Response? && 1 <= n <= s.callId
    ensures var before, after := s.futures[n - 1], HandleResponse(s, r).futures[n - 1];
      if CallId(n) == r.id && r.id in s.pending && before.Waiting? then
        && (r.error.NoError? ==> after == Resolved(r.value))
        && (r.error.DictError? ==> after == ToolFailed(r.error.payload))
        && (r.error.OtherError? ==> after == Failed(r.error.text))
      else after == before
  {
    if r.id in s.pending && CallId(n) == r.id {
      CallIdInjective(n, s.pending[r.id]);
    }
  }

  /** A reply that comes after its call timed out, was cancelled or was forgotten resolves nobody. */
  lemma LateReplyResolvesNobody(s: State, r: Response, n: nat)
    requires Valid(s) && r.Response? && 1 <= n <= s.callId && r.id == CallId(n)
    requires !s.futures[n - 1].Waiting? || CallId(n) !in s.pending
    ensures HandleResponse(s, r).futures == s.futures
  {
    if r.id in s.pending {
      CallIdInjective(n, s.pending[r.id]);
    }
  }

  /** The other ways to end: a cancelled call's future is cancelled if it was waiting, and when
      the reader fails so does every waiting future that is registered, with the reader's error. */
  lemma OtherEndings(s: State, n: nat, m: nat, text: string)
    requires Valid(s) && 1 <= n <= s.callId
    ensures s.futures[n - 1].Waiting? ==>
      && CancelFuture(s, m).futures[n - 1] == (if m == n then Cancelled else Waiting)
      && FailPending(s, text).futures[n - 1] == (if CallId(n) in s.pending then Failed(text) else Waiting)
    ensures StartCall(s).futures[n - 1] == s.futures[n - 1] && ForgetCall(s, m).futures == s.futures
    ensures FailPending(s, text).pending == map[] && !FailPending(s, text).reading
  {
  }

  /** Once settled, a future never changes, whatever operation comes next. */
  lemma FuturesSettleOnce(s: State, r: Response, text: string, n: nat, m: nat)
    requires 1 <= n <= |s.futures| && !s.futures[n - 1].Waiting?
    ensures StartCall(s).futures[n - 1] == s.futures[n - 1]
    ensures HandleResponse(s, r).futures[n - 1] == s.futures[n - 1]
    ensures FailPending(s, text).futures[n - 1] == s.futures[n - 1]
    ensures CancelFuture(s, m).futures[n - 1] == s.futures[n - 1]
    ensures ForgetCall(s, m).futures[n - 1] == s.futures[n - 1]
  {
  }

  // --- the client object ---

  class Future {
    var state: FutureState
    ghost const number: nat

    constructor (ghost number: nat)
      ensures state == Waiting && this.number == number
    {
      state := Waiting;
      this.number := number;
    }

    predicate Done()
      reads this
    {
      !state.Waiting?
    }

    /** set_result, set_exception or cancel after a look at done(). */
    method Finish(outcome: FutureState)
      modifies this
      ensures state == if old(state).Waiting? then outcome else old(state)
    {
      if !Done() {
        state := outcome;
      }
    }

    /** What a reply does to a waiting future, by the members of the reply. */
    method Answer(r: Response)
      requires r.Response?
      modifies this
      ensures !old(state).Waiting? ==> state == old(state)
      ensures old(state).Waiting? && r.error.NoError? ==> state == Resolved(r.value)
      ensures old(state).Waiting? && r.error.DictError? ==> state == ToolFailed(r.error.payload)
      ensures old(state).Waiting? && r.error.OtherError? ==> state == Failed(r.error.text)
      ensures state == if old(state).Waiting? then OutcomeOf(r) else old(state)
    {
      match r.error {
        case DictError(payload) => Finish(ToolFailed(payload));
        case OtherError(text) => Finish(Failed(text));
        case NoError => Finish(Resolved(r.value));
      }
    }
  }

  ghost function States(futures: seq<Future>): (states: seq<FutureState>)
    reads futures
    ensures |states| == |futures|
    ensures forall i :: 0 <= i < |futures| ==> states[i] == futures[i].state
  {
    seq(|futures|, i requires 0 <= i < |futures| reads futures => futures[i].state)
  }

  ghost function Numbers(pending: map<string, Future>): (numbers: map<string, nat>)
    ensures numbers.Keys == pending.Keys
    ensures forall id <- pending :: numbers[id] == pending[id].number
  {
    map id | id in pending :: pending[id].number
  }

  class RpcClient {
    var callId: nat
    var pendingCalls: map<string, Future>
    var reading: bool
    ghost var issued: seq<Future>

    /** Future n - 1 is that of call n, and the pending map holds futures under their ids. */
    ghost predicate Ok()
      reads this
    {
      && |issued| == callId
      && (forall i :: 0 <= i < |issued| ==> issued[i].number == i + 1)
      && (forall id <- pendingCalls :: IsPending(id, pendingCalls[id]))
    }

    ghost predicate IsPending(id: string, future: Future)
      reads this
    {
      1 <= future.number <= |issued| && issued[future.number - 1] == future && id == CallId(future.number)
    }

    ghost function Abstract(): (s: State)
      requires Ok()
      reads this, issued
      ensures Valid(s)
    {
      State(callId, Numbers(pendingCalls), States(issued), reading)
    }

    constructor ()
      ensures Ok() && Abstract() == START && issued == []
    {
      callId, pendingCalls, reading := 0, map[], true;
      issued := [];
    }

    /** Everything that call does before it first waits. */
    method StartRpc() returns (id: string, future: Future)
      requires Ok()
      modifies this`callId, this`pendingCalls, this`issued
      ensures Ok() && Abstract() == StartCall(old(Abstract()))
      ensures fresh(future) && issued == old(issued) + [future] && id == CallId(callId)
      ensures id in pendingCalls && pendingCalls[id] == future
    {
      hide CallId, States, Numbers;
      callId := callId + 1;
      id := CallId(callId);
      future := new Future(callId);
      pendingCalls := pendingCalls[id := future];
      issued := issued + [future];
      assert States(issued) == old(States(issued)) + [Waiting];
      assert Numbers(pendingCalls) == old(Numbers(pendingCalls))[id := callId];
    }

    method HandleReply(r: Response)
      requires Ok() && r.Response?
      modifies this`pendingCalls, issued
      ensures Ok() && Abstract() == HandleResponse(old(Abstract()), r) && issued == old(issued)
    {
      hide CallId, States, Numbers, OutcomeOf;
      if r.id in pendingCalls {
        var future := pendingCalls[r.id];
        future.Answer(r);
        assert States(issued) == SettleFuture(old(States(issued)), future.number, OutcomeOf(r));
        pendingCalls := pendingCalls - {r.id};
        assert Numbers(pendingCalls) == old(Numbers(pendingCalls)) - {r.id};
      }
    }

    /** One turn of the reader loop. */
    method HandleLine(r: Response)
      requires Ok()
      modifies this`pendingCalls, this`reading, issued
      ensures Ok() && Abstract() == HandleResponse(old(Abstract()), r) && issued == old(issued)
    {
      match r {
        case Response(_, _, _) => HandleReply(r);
        case NoId =>
        case Broken(text) => FailPendingCalls(text);
      }
    }

    /** The timeout or a cancellation reaches the future of a call. */
    method Cancel(future: Future)
      requires Ok() && future in issued
      modifies future
      ensures Ok() && Abstract() == CancelFuture(old(Abstract()), future.number)
    {
      hide CallId, States, Numbers;
      future.Finish(Cancelled);
      assert States(issued) == SettleFuture(old(States(issued)), future.number, Cancelled);
    }

    method Forget(n: nat)
      requires Ok()
      modifies this`pendingCalls
      ensures Ok() && Abstract() == ForgetCall(old(Abstract()), n)
    {
      hide CallId, States, Numbers;
      var id := CallId(n);
      if id in pendingCalls {
        pendingCalls := pendingCalls - {id};
      }
      assert Numbers(pendingCalls) == old(Numbers(pendingCalls)) - {id};
    }

    /** _fail_pending_calls: a loop over the pending futures, then the map is cleared. */
    method FailPendingCalls(text: string)
      requires Ok()
      modifies this`pendingCalls, this`reading, issued
      ensures Ok() && Abstract() == FailPending(old(Abstract()), text) && issued == old(issued)
    {
      FailEachPending(text);
      assert States(issued) == FailAll(old(States(issued)), old(pendingCalls).Keys, text);
      pendingCalls := map[];
      reading := false;
      assert Numbers(pendingCalls) == map[];
    }

    method FailEachPending(text: string)
      requires Ok()
      modifies issued
      ensures States(issued) == FailAll(old(States(issued)), pendingCalls.Keys, text)
    {
      hide CallId, States;
      ghost var before := States(issued);
      var left := pendingCalls.Keys;
      while left != {}
        invariant left <= pendingCalls.Keys
        invariant forall i :: 0 <= i < |issued| ==>
          issued[i].state == if CallId(i + 1) in pendingCalls.Keys - left && before[i].Waiting? then Failed(text) else before[i]
      {
        var id :| id in left;
        assert IsPending(id, pendingCalls[id]);
        CallIdsDistinct(pendingCalls[id].number);
        pendingCalls[id].Finish(Failed(text));
        left := left - {id};
      }
    }
  }
}
