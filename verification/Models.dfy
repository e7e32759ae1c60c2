// src/models/instrumented-provider.ts and src/models/resilient-provider.ts:
// every inner call is observed, and every logical call is a bounded number of
// inner calls. The model itself may answer anything or fail in any way.

module Json {
  import opened Support

  datatype Json =
    | JNull
    | JBool(b: bool)
    | JNumber(n: real)
    | JString(s: string)
    | JArray(items: seq<Json>)
    | JObject(fields: map<string, Json>)

  /** `source[key]`: `None` is `undefined`. */
  function Field(fields: map<string, Json>, key: string): Option<Json> {
    if key in fields then Some(fields[key]) else None
  }
}

module Models {
  import opened Support
  import opened Events
  import opened Trajectories
  import opened Sessions
  import opened Json

  datatype ErrorKind = Authentication | RateLimited | Network | Timeout | Server | BadRequest | InvalidResponse
                     | Configuration | Unknown
  datatype ModelError = ModelError(kind: ErrorKind, retryAfterMs: Option<int>, message: string)

  predicate IsRetryable(e: ModelError) { e.kind in {RateLimited, Network, Timeout, Server} }
  predicate IsReaskable(e: ModelError) { e.kind == InvalidResponse }

  datatype Proposal =
    | CallTool(toolName: string, input: Json, rationale: string)
    | FinishGoal(summary: string)
    | GiveUpGoal(reason: string)

  /** Whatever the model returned; each caller reads the part its request asked for. */
  datatype Answer = Answer(raw: Json, proposal: Proposal)

  /** How the model would answer the inner call with this number, counted over the whole run. */
  type Model = nat -> Result<Answer, ModelError>

  /** The session state that model calls move. */
  datatype Ledger = Ledger(usage: Usage, tally: Tally, calls: CallAudit)

  ghost function LedgerOf(session: RunSession): Ledger
    reads session, session.tracker
  {
    Ledger(session.tracker.usage, session.traj.tally, session.audit.calls)
  }

  /** `n` observed calls for one purpose, numbered `first`, `first + 1`, …, each answered at once. */
  ghost predicate CallsMade(l0: Ledger, l1: Ledger, purpose: Purpose, first: nat, n: nat) {
    && OnlyModelCalls(l0.usage, l0.tally, l1.usage, l1.tally, n)
    && l1.calls.open.None? && l1.calls.paired == l0.calls.paired
    && |l1.calls.starts| == |l0.calls.starts| + n
    && l1.calls.starts[..|l0.calls.starts|] == l0.calls.starts
    && forall i :: |l0.calls.starts| <= i < |l1.calls.starts| ==>
         l1.calls.starts[i].purpose == purpose && l1.calls.starts[i].attempt == first + i - |l0.calls.starts|
  }

  lemma CallsCompose(l0: Ledger, l1: Ledger, l2: Ledger, purpose: Purpose, first: nat, n: nat, m: nat)
    requires CallsMade(l0, l1, purpose, first, n) && CallsMade(l1, l2, purpose, first + n, m)
    ensures CallsMade(l0, l2, purpose, first, n + m)
  {
    var k0, k1 := |l0.calls.starts|, |l1.calls.starts|;
    assert l2.calls.starts[..k0] == l2.calls.starts[..k1][..k0];
    forall i | k0 <= i < |l2.calls.starts|
      ensures l2.calls.starts[i].purpose == purpose && l2.calls.starts[i].attempt == first + i - k0
    {
      if i < k1 {
        assert l2.calls.starts[..k1][i] == l1.calls.starts[i];
      }
    }
  }

  /** One start followed by its answer is one call made. */
  lemma OneCall(l0: Ledger, l1: Ledger, start: CallStart)
    requires l0.calls.open.None?
    requires OnlyModelCalls(l0.usage, l0.tally, l1.usage, l1.tally, 1)
    requires l1.calls == CallAudit(l0.calls.starts + [start], None, l0.calls.paired)
    ensures CallsMade(l0, l1, start.purpose, start.attempt, 1)
  {
  }

  class InstrumentedModelProvider {
    const session: RunSession
    const model: Model

    constructor (session: RunSession, model: Model)
      ensures this.session == session && this.model == model
    {
      this.session, this.model := session, model;
    }

    /** A start record, then exactly one completion or failure record, around one call of the model. */
    method Observe(purpose: Purpose, attempt: nat) returns (r: Result<Answer, ModelError>)
      requires session.Valid() && session.audit.calls.open.None?
      modifies session`log, session`traj, session`audit, session`nextId, session.factory, session.tracker
      ensures session.Valid()
      ensures r == model(old(session.tracker.usage.modelCalls))
      ensures CallsMade(old(LedgerOf(session)), LedgerOf(session), purpose, attempt, 1)
      ensures session.traj.tally.modelFailures == old(session.traj.tally.modelFailures) + if r.Err? then 1 else 0
      ensures session.traj == old(session.traj).(tally := session.traj.tally)
      ensures session.audit == old(session.audit).(calls := session.audit.calls)
      ensures old(session.log) <= session.log && old(session.nextId) < session.nextId
    {
      ghost var before := LedgerOf(session);
      r := model(session.tracker.usage.modelCalls);
      var id := session.NextId();
      var start := CallStart(id, purpose, attempt);
      session.RecordModelCallStarted(start);
      var latencyMs: int := *;
      if r.Ok? {
        var inputTokens: int, outputTokens: int := *, *;
        session.RecordModelCall(start, inputTokens, outputTokens, latencyMs);
        OneCall(before, LedgerOf(session), start);
      } else {
        session.RecordModelCallFailed(start, latencyMs);
        OneCall(before, LedgerOf(session), start);
      }
    }
  }

  class AttemptCounter {
    var current: nat

    constructor ()
      ensures current == 0
    {
      current := 0;
    }

    method Next() returns (attempt: nat)
      modifies this
      ensures current == old(current) + 1 == attempt
    {
      current := current + 1;
      attempt := current;
    }
  }

  datatype Resilience = Resilience(maxRetries: int, maxReasks: int, baseDelayMs: int, maxDelayMs: int)

  function Pow2(n: nat): nat { if n == 0 then 1 else 2 * Pow2(n - 1) }

  /** Inner calls that one run of the retry loop may make, and that one logical call may make. */
  function RetryBound(o: Resilience): (b: nat)
    ensures b >= 1
  {
    Max(0, o.maxRetries) + 1
  }
  function CallBound(o: Resilience): (b: nat)
    ensures b >= 1
  {
    var retries, asks := RetryBound(o), Max(0, o.maxReasks) + 1;
    assert retries * asks >= 1;
    retries * asks
  }

  /** One logical call: at least one and at most `CallBound` inner calls, numbered from 1. */
  ghost predicate LogicalCall(l0: Ledger, l1: Ledger, purpose: Purpose, o: Resilience) {
    var n := l1.usage.modelCalls - l0.usage.modelCalls;
    1 <= n <= CallBound(o) && CallsMade(l0, l1, purpose, 1, n)
  }

  /** Re-ask number `reasks` may use up one more retry budget and still leave the call within its bound. */
  lemma BoundKept(o: Resilience, reasks: nat, made: nat)
    requires reasks <= Max(0, o.maxReasks)
    requires made <= reasks * RetryBound(o) + RetryBound(o)
    ensures made <= (reasks + 1) * RetryBound(o) <= CallBound(o)
  {
    var b, asks := RetryBound(o), Max(0, o.maxReasks) + 1;
    assert reasks * b + b == (reasks + 1) * b <= asks * b;
  }

  // ---------------------------------------------- which answers end a logical call

  /** A failure that may pass, by what the provider classes it as; all others never do. */
  predicate IsTransient(kind: ErrorKind) {
    kind != Authentication && kind != Configuration && kind != BadRequest && kind != InvalidResponse && kind != Unknown
  }

  lemma RetryableIffTransient(e: ModelError)
    ensures IsRetryable(e) <==> IsTransient(e.kind)
    ensures IsReaskable(e) <==> e.kind == InvalidResponse
  {
  }

  ghost predicate Fails(model: Model, i: nat) {
    model(i).Err? && IsTransient(model(i).error.kind)
  }

  ghost predicate AllFail(model: Model, from: nat, end: nat) {
    forall i: nat {:trigger Fails(model, i)} :: from <= i < end ==> Fails(model, i)
  }

  /**
   * Calls `from`, ..., `end - 1` of one retry loop: every one before the last failed
   * in passing, and the last is an answer, a failure for good, or the end of the budget.
   */
  ghost predicate Retried(model: Model, from: nat, end: nat, o: Resilience, r: Result<Answer, ModelError>) {
    && from < end <= from + RetryBound(o) && r == model(end - 1)
    && AllFail(model, from, end - 1)
    && (Fails(model, end - 1) ==> end == from + RetryBound(o))
  }

  /** A call after `retries` failures that passed: it fails in passing too, or it ends the loop. */
  lemma RetryOrEnd(model: Model, from: nat, retries: nat, o: Resilience, r: Result<Answer, ModelError>)
    requires AllFail(model, from, from + retries) && r == model(from + retries) && retries < RetryBound(o)
    ensures r.Err? && IsRetryable(r.error) ==> AllFail(model, from, from + retries + 1)
    ensures r.Ok? || !IsRetryable(r.error) || retries == RetryBound(o) - 1 ==> Retried(model, from, from + retries + 1, o, r)
  {
    if r.Err? {
      RetryableIffTransient(r.error);
    }
  }

  /** How many of the calls `from`, ..., `end - 1` are of interest. */
  ghost function Count(model: Model, interest: Result<Answer, ModelError> -> bool, from: nat, end: nat): nat
    decreases end
  {
    if end <= from then 0
    else Count(model, interest, from, end - 1) + if interest(model(end - 1)) then 1 else 0
  }

  lemma {:induction false} CountSplits(model: Model, interest: Result<Answer, ModelError> -> bool, from: nat, mid: nat, end: nat)
    requires from <= mid <= end
    ensures Count(model, interest, from, end) == Count(model, interest, from, mid) + Count(model, interest, mid, end)
    decreases end
  {
    if mid < end {
      CountSplits(model, interest, from, mid, end - 1);
    }
  }

  lemma {:induction false} CountNone(model: Model, interest: Result<Answer, ModelError> -> bool, from: nat, end: nat)
    requires forall i: nat :: from <= i < end ==> !interest(model(i))
    ensures Count(model, interest, from, end) == 0
    decreases end
  {
    if from < end {
      CountNone(model, interest, from, end - 1);
    }
  }

  type Interest = Result<Answer, ModelError> -> bool

  predicate Answered(x: Result<Answer, ModelError>) { x.Ok? }

  predicate Formless(x: Result<Answer, ModelError>) { x.Err? && x.error.kind == InvalidResponse }

  function Unparsed<T>(parse: Json -> Result<T, seq<string>>): Interest {
    (x: Result<Answer, ModelError>) => x.Ok? && parse(x.value.raw).Err?
  }

  /** Every one of these calls failed in passing or was rejected. */
  ghost predicate AllPassed(model: Model, from: nat, end: nat, rejected: Interest) {
    forall i: nat {:trigger model(i)} :: from <= i < end ==> Fails(model, i) || rejected(model(i))
  }

  /** So far: `reasks` of the calls were what a re-ask answers. */
  ghost predicate Reasked(model: Model, from: nat, end: nat, asked: Interest, rejected: Interest, reasks: nat) {
    from <= end && Count(model, asked, from, end) == reasks && AllPassed(model, from, end, rejected)
  }

  /** The same, spelt so that the loops carry it whole; `AskingIs` unfolds it. */
  ghost predicate Asking(model: Model, from: nat, end: nat, asked: Interest, rejected: Interest, reasks: nat) {
    forall e: nat {:trigger Reasked(model, from, e, asked, rejected, reasks)} :: e == end ==>
      Reasked(model, from, e, asked, rejected, reasks)
  }

  lemma AskingIs(model: Model, from: nat, end: nat, asked: Interest, rejected: Interest, reasks: nat)
    ensures Asking(model, from, end, asked, rejected, reasks) <==> Reasked(model, from, end, asked, rejected, reasks)
  {
  }

  /** What counts as asked for is no failure that passes. */
  ghost predicate NeverTransient(asked: Interest) {
    forall x :: asked(x) ==> x.Ok? || !IsTransient(x.error.kind)
  }

  /** One more asking, up to its last call. */
  lemma AskedOnce(model: Model, from: nat, mid: nat, end: nat, o: Resilience, asked: Interest, rejected: Interest, reasks: nat,
                  r: Result<Answer, ModelError>)
    requires Reasked(model, from, mid, asked, rejected, reasks) && Retried(model, mid, end, o, r) && NeverTransient(asked)
    ensures AllPassed(model, from, end - 1, rejected)
    ensures Count(model, asked, from, end) == reasks + if asked(r) then 1 else 0
    ensures rejected(r) && asked(r) ==> Reasked(model, from, end, asked, rejected, reasks + 1)
    ensures Fails(model, end - 1) ==> BudgetSpent(model, from, end, o)
  {
    CountSplits(model, asked, from, mid, end - 1);
    forall i: nat | mid <= i < end - 1
      ensures !asked(model(i))
    {
      assert Fails(model, i);
    }
    CountNone(model, asked, mid, end - 1);
  }

  /** The last calls used up one whole retry budget. */
  ghost predicate BudgetSpent(model: Model, from: nat, end: nat, o: Resilience) {
    from <= end - RetryBound(o) && AllFail(model, end - RetryBound(o), end)
  }

  /**
   * What a structured call returns of the calls `from`, ..., `end - 1`: the last one's
   * error or its parse. Every earlier one failed in passing or did not parse; an
   * error is for good or the end of a retry budget, and a rejected parse is the end
   * of the re-asks.
   */
  ghost predicate Structured<T>(model: Model, from: nat, end: nat, o: Resilience, parse: Json -> Result<T, seq<string>>,
                                r: Result<Result<T, seq<string>>, ModelError>)
  {
    && from < end
    && r == (if model(end - 1).Err? then Err(model(end - 1).error) else Ok(parse(model(end - 1).value.raw)))
    && AllPassed(model, from, end - 1, Unparsed(parse))
    && (Fails(model, end - 1) ==> BudgetSpent(model, from, end, o))
    && Count(model, Answered, from, end) <= Max(0, o.maxReasks) + 1
    && (r.Ok? && r.value.Err? ==> Count(model, Answered, from, end) == Max(0, o.maxReasks) + 1)
  }

  /** The same for a tool action, where a rejected answer is an `invalid_response`. */
  ghost predicate Chosen(model: Model, from: nat, end: nat, o: Resilience, r: Result<Proposal, ModelError>) {
    && from < end
    && r == (if model(end - 1).Err? then Err(model(end - 1).error) else Ok(model(end - 1).value.proposal))
    && AllPassed(model, from, end - 1, Formless)
    && (Fails(model, end - 1) ==> BudgetSpent(model, from, end, o))
    && Count(model, Formless, from, end) <= Max(0, o.maxReasks) + 1
    && (Formless(model(end - 1)) ==> Count(model, Formless, from, end) == Max(0, o.maxReasks) + 1)
  }

  /** One more asking ends a structured call, or is one more rejected answer. */
  lemma StructuredStep<T>(model: Model, from: nat, mid: nat, end: nat, o: Resilience, parse: Json -> Result<T, seq<string>>,
                          reasks: nat, r: Result<Answer, ModelError>)
    requires Asking(model, from, mid, Answered, Unparsed(parse), reasks) && Retried(model, mid, end, o, r)
    requires reasks <= Max(0, o.maxReasks)
    ensures r.Err? ==> Structured(model, from, end, o, parse, Err(r.error))
    ensures r.Ok? && (parse(r.value.raw).Ok? || reasks >= o.maxReasks) ==> Structured(model, from, end, o, parse, Ok(parse(r.value.raw)))
    ensures r.Ok? && parse(r.value.raw).Err? ==> Asking(model, from, end, Answered, Unparsed(parse), reasks + 1)
  {
    AskingIs(model, from, mid, Answered, Unparsed(parse), reasks);
    AskingIs(model, from, end, Answered, Unparsed(parse), reasks + 1);
    AskedOnce(model, from, mid, end, o, Answered, Unparsed(parse), reasks, r);
  }

  lemma ChosenStep(model: Model, from: nat, mid: nat, end: nat, o: Resilience, reasks: nat, r: Result<Answer, ModelError>)
    requires Asking(model, from, mid, Formless, Formless, reasks) && Retried(model, mid, end, o, r)
    requires reasks <= Max(0, o.maxReasks)
    ensures r.Ok? ==> Chosen(model, from, end, o, Ok(r.value.proposal))
    ensures r.Err? && (!IsReaskable(r.error) || reasks >= o.maxReasks) ==> Chosen(model, from, end, o, Err(r.error))
    ensures r.Err? && IsReaskable(r.error) ==> Asking(model, from, end, Formless, Formless, reasks + 1)
  {
    AskingIs(model, from, mid, Formless, Formless, reasks);
    AskingIs(model, from, end, Formless, Formless, reasks + 1);
    AskedOnce(model, from, mid, end, o, Formless, Formless, reasks, r);
    if r.Err? {
      RetryableIffTransient(r.error);
    }
  }

  class ResilientModelProvider {
    const inner: InstrumentedModelProvider
    const options: Resilience
    var sleeps: seq<int>  // the waits requested from `sleep`, in order

    constructor (inner: InstrumentedModelProvider, options: Resilience)
      ensures this.inner == inner && this.options == options && sleeps == []
    {
      this.inner, this.options, sleeps := inner, options, [];
    }

    /** The provider's own hint is what is waited, up to the maximum; without one the waits double. */
    function DelayFor(retry: nat, error: ModelError): (ms: int)
      ensures ms <= options.maxDelayMs
      ensures error.retryAfterMs.Some? ==> ms == error.retryAfterMs.value || ms == options.maxDelayMs < error.retryAfterMs.value
    {
      if error.retryAfterMs.Some? then Min(error.retryAfterMs.value, options.maxDelayMs)
      else Min(options.baseDelayMs * Pow2(retry), options.maxDelayMs)
    }

    /** The first wait is the base delay, every further one twice the one before, all up to the maximum. */
    lemma WaitsDouble(retry: nat, error: ModelError)
      requires error.retryAfterMs.None? && options.baseDelayMs >= 0 && options.maxDelayMs >= 0
      ensures DelayFor(0, error) == Min(options.baseDelayMs, options.maxDelayMs)
      ensures DelayFor(retry + 1, error) == Min(2 * DelayFor(retry, error), options.maxDelayMs)
    {
      var b, p := options.baseDelayMs, Pow2(retry);
      assert b * (2 * p) == 2 * (b * p);
      assert b * p >= 0;
    }

    /** The number of inner calls so far. */
    ghost function Calls(): nat
      reads inner.session.tracker
    {
      inner.session.tracker.usage.modelCalls
    }

    /** The answer that the last inner call got. */
    ghost function LastAnswer(): Result<Answer, ModelError>
      reads inner.session.tracker
    {
      inner.model(Max(0, Calls() - 1))
    }

    /** Each of the waits after `before` answers the failure that came just before it. */
    ghost predicate WaitsFollow(before: seq<int>, after: seq<int>, from: nat) {
      before <= after && forall j: nat :: j < |after| - |before| ==> WaitAt(after[|before|..], from, j)
    }

    predicate WaitAt(waits: seq<int>, from: nat, j: nat)
      requires j < |waits|
    {
      inner.model(from + j).Err? && waits[j] == DelayFor(j, inner.model(from + j).error)
    }

    lemma OneMoreWait(before: seq<int>, after: seq<int>, from: nat, retries: nat, error: ModelError)
      requires WaitsFollow(before, after, from) && |after| == |before| + retries && inner.model(from + retries) == Err(error)
      ensures WaitsFollow(before, after + [DelayFor(retries, error)], from)
    {
      var next := after + [DelayFor(retries, error)];
      assert next[|before|..] == after[|before|..] + [DelayFor(retries, error)];
      forall j: nat | j < |next| - |before|
        ensures WaitAt(next[|before|..], from, j)
      {
        if j < retries {
          assert WaitAt(after[|before|..], from, j);
        }
      }
    }

    /** No wait ever exceeds the configured maximum. */
    ghost predicate DelaysCapped()
      reads this
    {
      forall i :: 0 <= i < |sleeps| ==> sleeps[i] <= options.maxDelayMs
    }

    method CallOnce(purpose: Purpose, attempts: AttemptCounter, ghost l0: Ledger, ghost first: nat, ghost made: nat)
      returns (r: Result<Answer, ModelError>)
      requires inner.session.Valid() && inner.session.audit.calls.open.None?
      requires CallsMade(l0, LedgerOf(inner.session), purpose, first, made) && attempts.current + 1 == first + made
      modifies attempts, inner.session`log, inner.session`traj, inner.session`audit, inner.session`nextId,
               inner.session.factory, inner.session.tracker
      ensures inner.session.Valid() && attempts.current == old(attempts.current) + 1
      ensures r == inner.model(old(Calls())) && Calls() == old(Calls()) + 1
      ensures CallsMade(l0, LedgerOf(inner.session), purpose, first, made + 1)
      ensures inner.session.traj == old(inner.session.traj).(tally := inner.session.traj.tally)
      ensures inner.session.audit == old(inner.session.audit).(calls := inner.session.audit.calls)
      ensures old(inner.session.log) <= inner.session.log && old(inner.session.nextId) <= inner.session.nextId
    {
      ghost var l1 := LedgerOf(inner.session);
      var attempt := attempts.Next();
      r := inner.Observe(purpose, attempt);
      CallsCompose(l0, l1, LedgerOf(inner.session), purpose, first, made, 1);
    }

    method WithRetries(purpose: Purpose, attempts: AttemptCounter) returns (r: Result<Answer, ModelError>)
      requires inner.session.Valid() && inner.session.audit.calls.open.None? && DelaysCapped()
      modifies this, attempts, inner.session`log, inner.session`traj, inner.session`audit, inner.session`nextId,
               inner.session.factory, inner.session.tracker
      ensures inner.session.Valid() && DelaysCapped()
      ensures 1 <= attempts.current - old(attempts.current) <= RetryBound(options)
      ensures |sleeps| - |old(sleeps)| == attempts.current - old(attempts.current) - 1
      ensures WaitsFollow(old(sleeps), sleeps, old(Calls()))
      ensures Retried(inner.model, old(Calls()), Calls(), options, r)
      ensures CallsMade(old(LedgerOf(inner.session)), LedgerOf(inner.session), purpose,
                        old(attempts.current) + 1, attempts.current - old(attempts.current))
      ensures inner.session.traj == old(inner.session.traj).(tally := inner.session.traj.tally)
      ensures inner.session.audit == old(inner.session.audit).(calls := inner.session.audit.calls)
      ensures old(inner.session.log) <= inner.session.log && old(inner.session.nextId) <= inner.session.nextId
    {
      var session := inner.session;
      ghost var l0, before, from := LedgerOf(session), attempts.current, Calls();
      var retries := 0;
      while true
        invariant session.Valid() && DelaysCapped()
        invariant 0 <= retries <= Max(0, options.maxRetries)
        invariant attempts.current == before + retries
        invariant |sleeps| == |old(sleeps)| + retries
        invariant WaitsFollow(old(sleeps), sleeps, from)
        invariant Calls() == from + retries && AllFail(inner.model, from, from + retries)
        invariant CallsMade(l0, LedgerOf(session), purpose, before + 1, retries)
        invariant session.traj == old(session.traj).(tally := session.traj.tally)
        invariant session.audit == old(session.audit).(calls := session.audit.calls)
        invariant old(session.log) <= session.log && old(session.nextId) <= session.nextId
        decreases Max(0, options.maxRetries) - retries
      {
        r := CallOnce(purpose, attempts, l0, before + 1, retries);
        RetryOrEnd(inner.model, from, retries, options, r);
        if r.Ok? || !IsRetryable(r.error) || retries >= options.maxRetries {
          return;
        }
        OneMoreWait(old(sleeps), sleeps, from, retries, r.error);
        sleeps := sleeps + [DelayFor(retries, r.error)];
        retries := retries + 1;
      }
    }

    /** One more asking within a logical call: at most one more retry budget. */
    method Ask(purpose: Purpose, attempts: AttemptCounter, ghost l0: Ledger, ghost reasks: nat) returns (r: Result<Answer, ModelError>)
      requires inner.session.Valid() && inner.session.audit.calls.open.None? && DelaysCapped()
      requires reasks <= Max(0, options.maxReasks) && reasks <= attempts.current <= reasks * RetryBound(options)
      requires CallsMade(l0, LedgerOf(inner.session), purpose, 1, attempts.current)
      modifies this, attempts, inner.session`log, inner.session`traj, inner.session`audit, inner.session`nextId,
               inner.session.factory, inner.session.tracker
      ensures inner.session.Valid() && DelaysCapped()
      ensures reasks < attempts.current <= (reasks + 1) * RetryBound(options) <= CallBound(options)
      ensures CallsMade(l0, LedgerOf(inner.session), purpose, 1, attempts.current)
      ensures Retried(inner.model, old(Calls()), Calls(), options, r)
      ensures inner.session.traj == old(inner.session.traj).(tally := inner.session.traj.tally)
      ensures inner.session.audit == old(inner.session.audit).(calls := inner.session.audit.calls)
      ensures old(inner.session.log) <= inner.session.log && old(inner.session.nextId) <= inner.session.nextId
    {
      ghost var l1, made := LedgerOf(inner.session), attempts.current;
      r := WithRetries(purpose, attempts);
      CallsCompose(l0, l1, LedgerOf(inner.session), purpose, 1, made, attempts.current - made);
      BoundKept(options, reasks, attempts.current);
    }

    /** Asks until the answer parses, the re-asks are spent, or a call fails for good. */
    method StructuredGenerate<T>(purpose: Purpose, parse: Json -> Result<T, seq<string>>)
      returns (r: Result<Result<T, seq<string>>, ModelError>)
      requires inner.session.Valid() && inner.session.audit.calls.open.None? && DelaysCapped()
      modifies this, inner.session`log, inner.session`traj, inner.session`audit, inner.session`nextId,
               inner.session.factory, inner.session.tracker
      ensures inner.session.Valid() && DelaysCapped()
      ensures Structured(inner.model, old(Calls()), Calls(), options, parse, r)
      ensures LogicalCall(old(LedgerOf(inner.session)), LedgerOf(inner.session), purpose, options)
      ensures inner.session.traj == old(inner.session.traj).(tally := inner.session.traj.tally)
      ensures inner.session.audit == old(inner.session.audit).(calls := inner.session.audit.calls)
      ensures old(inner.session.log) <= inner.session.log && old(inner.session.nextId) <= inner.session.nextId
    {
      var session := inner.session;
      var attempts := new AttemptCounter();
      ghost var l0, from := LedgerOf(session), Calls();
      AskingIs(inner.model, from, from, Answered, Unparsed(parse), 0);
      var reasks := 0;
      while true
        invariant session.Valid() && DelaysCapped() && fresh(attempts)
        invariant 0 <= reasks <= Max(0, options.maxReasks)
        invariant reasks <= attempts.current <= reasks * RetryBound(options)
        invariant Asking(inner.model, from, Calls(), Answered, Unparsed(parse), reasks)
        invariant CallsMade(l0, LedgerOf(session), purpose, 1, attempts.current)
        invariant session.traj == old(session.traj).(tally := session.traj.tally)
        invariant session.audit == old(session.audit).(calls := session.audit.calls)
        invariant old(session.log) <= session.log && old(session.nextId) <= session.nextId
        decreases Max(0, options.maxReasks) - reasks
      {
        ghost var mid := Calls();
        var answer := Ask(purpose, attempts, l0, reasks);
        StructuredStep(inner.model, from, mid, Calls(), options, parse, reasks, answer);
        if answer.Err? {
          return Err(answer.error);
        }
        var parsed := parse(answer.value.raw);
        if parsed.Ok? || reasks >= options.maxReasks {
          return Ok(parsed);
        }
        reasks := reasks + 1;
      }
    }

    /** The same for a tool action: an answer in neither form is an `invalid_response` and is re-asked. */
    method RequestToolAction() returns (r: Result<Proposal, ModelError>)
      requires inner.session.Valid() && inner.session.audit.calls.open.None? && DelaysCapped()
      modifies this, inner.session`log, inner.session`traj, inner.session`audit, inner.session`nextId,
               inner.session.factory, inner.session.tracker
      ensures inner.session.Valid() && DelaysCapped()
      ensures LogicalCall(old(LedgerOf(inner.session)), LedgerOf(inner.session), SelectAction, options)
      ensures Chosen(inner.model, old(Calls()), Calls(), options, r)
      ensures inner.session.traj == old(inner.session.traj).(tally := inner.session.traj.tally)
      ensures inner.session.audit == old(inner.session.audit).(calls := inner.session.audit.calls)
      ensures old(inner.session.log) <= inner.session.log && old(inner.session.nextId) <= inner.session.nextId
    {
      var session := inner.session;
      var attempts := new AttemptCounter();
      ghost var l0, from := LedgerOf(session), Calls();
      AskingIs(inner.model, from, from, Formless, Formless, 0);
      var reasks := 0;
      while true
        invariant session.Valid() && DelaysCapped() && fresh(attempts)
        invariant 0 <= reasks <= Max(0, options.maxReasks)
        invariant reasks <= attempts.current <= reasks * RetryBound(options)
        invariant Asking(inner.model, from, Calls(), Formless, Formless, reasks)
        invariant CallsMade(l0, LedgerOf(session), SelectAction, 1, attempts.current)
        invariant session.traj == old(session.traj).(tally := session.traj.tally)
        invariant session.audit == old(session.audit).(calls := session.audit.calls)
        invariant old(session.log) <= session.log && old(session.nextId) <= session.nextId
        decreases Max(0, options.maxReasks) - reasks
      {
        ghost var mid := Calls();
        var answer := Ask(SelectAction, attempts, l0, reasks);
        ChosenStep(inner.model, from, mid, Calls(), options, reasks, answer);
        if answer.Ok? {
          return Ok(answer.value.proposal);
        }
        if !IsReaskable(answer.error) || reasks >= options.maxReasks {
          return Err(answer.error);
        }
        reasks := reasks + 1;
      }
    }
  }
}
