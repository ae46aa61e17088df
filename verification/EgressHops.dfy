/**
 Executing a request over redirect hops: each hop is authorized in one policy snapshot, reserves its
 budget, streams at most its destination's response cap, and settles before the next hop.

 The network is an input: `replies` says what each hop would meet. Other callers share the book:
 `others` are the calls they make before each hop reserves and while it is in flight.
 */
module EgressHops {
  import opened Common
  import opened EgressErrors
  import opened EgressPolicy
  import opened EgressPrepare
  import R = EgressRuntime
  import B = EgressBudget
  import L = EgressLedger

  /** A body that decodes as text, after redaction of the secret. */
  datatype Content = Content(text: string, contentType: Option<string>, redactions: nat)

  /** What the network would answer to one hop. */
  datatype Reply =
    | Redirects(location: string, joined: Option<Url>, tookMs: u64)
    | Body(status: nat, contentLength: Option<nat>, chunks: seq<nat>, content: Option<Content>, tookMs: u64)
    | Broken(error: EgressError, tookMs: u64)
    | TimedOut(tookMs: u64)

  datatype HopResponse =
    | Redirect(location: string, joined: Option<Url>)
    | Final(status: nat, content: Content, responseBytes: u64)

  /** One performed hop and what was reserved and settled for it. */
  datatype Hop = Hop(destination: Authorized, request: B.Request, bytes: u64, elapsedMs: u64)

  /** What other callers do to the book since the last hop, and while this one is in flight. */
  datatype Meanwhile = Meanwhile(before: seq<B.Op>, during: seq<B.Op>)

  /** The caller and its request, as the loop sees them; `fixedBytes` is the request's size without its URL. */
  datatype Job = Job(
    ctx: R.Context, state: R.RuntimeState, scope: Option<string>, verb: string, fixedBytes: nat,
    timeoutMs: Option<u64>, secret: Option<Secret>)

  // ---------- One hop ----------

  function Total(chunks: seq<nat>): nat {
    if chunks == [] then 0 else Total(chunks[..|chunks| - 1]) + chunks[|chunks| - 1]
  }

  lemma {:induction false} TotalOfPrefix(chunks: seq<nat>, n: nat)
    requires n <= |chunks|
    ensures Total(chunks[..n]) <= Total(chunks)
    decreases |chunks| - n
  {
    if n < |chunks| {
      assert chunks[..n + 1][..n] == chunks[..n];
      TotalOfPrefix(chunks, n + 1);
    } else {
      assert chunks[..n] == chunks;
    }
  }

  /** Streaming stops at the cap: the body is taken exactly when all of it fits. */
  method StreamBody(chunks: seq<nat>, cap: u64) returns (r: Option<u64>)
    ensures r.Some? <==> Total(chunks) <= cap
    ensures r.Some? ==> r.value == Total(chunks)
  {
    var bytes: nat := 0;
    for n := 0 to |chunks|
      invariant bytes == Total(chunks[..n]) <= cap
    {
      assert chunks[..n + 1][..n] == chunks[..n];
      if bytes + chunks[n] > cap {
        TotalOfPrefix(chunks, n + 1);
        return None;
      }
      bytes := bytes + chunks[n];
    }
    assert chunks[..|chunks|] == chunks;
    return Some(bytes);
  }

  /** What a hop to `d` yields: the body counts only if it declares no more than the cap and holds no more. */
  function Outcome(d: Destination, reply: Reply): Result<HopResponse, EgressError> {
    match reply
    case Redirects(location, joined, _) => Ok(Redirect(location, joined))
    case TimedOut(_) => Err(Timeout)
    case Broken(error, _) => Err(error)
    case Body(status, contentLength, chunks, content, _) =>
      if (contentLength.Some? && contentLength.value > d.maxResponseBytes) || Total(chunks) > d.maxResponseBytes
      then Err(Budget("per-request response-byte cap"))
      else if content.Some? then Ok(Final(status, content.value, Total(chunks)))
      else Err(NonUtf8)
  }

  function BytesOf(answer: Result<HopResponse, EgressError>): u64 {
    if answer.Ok? && answer.value.Final? then answer.value.responseBytes else 0
  }

  method PerformHop(d: Destination, reply: Reply) returns (r: Result<HopResponse, EgressError>)
    ensures r == Outcome(d, reply)
    ensures r.Ok? && r.value.Final? ==> r.value.responseBytes <= d.maxResponseBytes
    ensures reply.Body? ==>
              (r.Ok? <==> && (reply.contentLength.Some? ==> reply.contentLength.value <= d.maxResponseBytes)
                          && Total(reply.chunks) <= d.maxResponseBytes && reply.content.Some?)
    ensures reply.Body? && r.Ok? ==> r.value == Final(reply.status, reply.content.value, Total(reply.chunks))
  {
    match reply
    case Redirects(location, joined, _) => r := Ok(Redirect(location, joined));
    case TimedOut(_) => r := Err(Timeout);
    case Broken(error, _) => r := Err(error);
    case Body(status, contentLength, chunks, content, _) =>
      if contentLength.Some? && contentLength.value > d.maxResponseBytes {
        return Err(Budget("per-request response-byte cap"));
      }
      var bytes := StreamBody(chunks, d.maxResponseBytes);
      if bytes.None? {
        return Err(Budget("per-request response-byte cap"));
      }
      r := if content.Some? then Ok(Final(status, content.value, bytes.value)) else Err(NonUtf8);
  }

  predicate FollowsRedirects(job: Job) {
    Upper(job.verb) == "GET" || Upper(job.verb) == "HEAD"
  }

  // ---------- Authorization of a hop ----------

  predicate SecretAllowed(job: Job, d: Destination) {
    job.secret.Some? ==>
      && R.Target(job.secret.value.id, job.secret.value.version) !in job.state.revokedSecrets
      && "secrets.use:" + job.secret.value.id in job.ctx.grants
      && d.id in job.secret.value.destinations
  }

  /** Granted and unrevoked in the job's one snapshot, for the destination and for the secret. */
  predicate Permitted(job: Job, d: Destination) {
    && "egress.destination:" + d.id in job.ctx.grants
    && R.Target(d.id, d.version) !in job.state.revokedDestinations
    && SecretAllowed(job, d)
  }

  function SecretRefused(job: Job, d: Destination): (r: Option<EgressError>)
    ensures r.None? <==> SecretAllowed(job, d)
  {
    if job.secret.None? then None
    else if R.Target(job.secret.value.id, job.secret.value.version) in job.state.revokedSecrets
    then Some(Revoked("secret"))
    else if R.SecretGrant(job.secret.value.id) !in job.ctx.grants then Some(Denied("missing exact grant"))
    else if d.id !in job.secret.value.destinations then Some(InvalidSecretHandle)
    else None
  }

  function HopTimeout(job: Job, d: Destination): u64 {
    if job.timeoutMs.Some? then job.timeoutMs.value else d.requestTimeoutMs
  }

  function SessionCaps(p: Policy): B.Limits {
    var l := p.sessionLimits;
    B.Limits(l.maxRequests, l.maxRequestBytes, l.maxResponseBytes, l.maxTimeMs)
  }

  function DestinationCaps(d: Destination): B.Limits {
    B.Limits(d.maxRequestsPerSession, d.maxRequestBytesPerSession,
             d.maxResponseBytesPerSession, d.maxTimeMsPerSession)
  }

  /** A reservation's limits are those configured, field by field. */
  predicate LimitsAre(l: B.Limits, configured: SessionLimits) {
    && l.maxRequests == configured.maxRequests && l.maxRequestBytes == configured.maxRequestBytes
    && l.maxResponseBytes == configured.maxResponseBytes && l.maxTimeMs == configured.maxTimeMs
  }

  predicate DestinationLimitsAre(l: B.Limits, d: Destination) {
    && l.maxRequests == d.maxRequestsPerSession && l.maxRequestBytes == d.maxRequestBytesPerSession
    && l.maxResponseBytes == d.maxResponseBytesPerSession && l.maxTimeMs == d.maxTimeMsPerSession
  }

  /** The checks a hop passes before it asks for a reservation. */
  predicate MayAsk(job: Job, a: Authorized) {
    && Permitted(job, a.policy)
    && job.fixedBytes + |a.url.text| <= a.policy.maxRequestBytes
    && (job.timeoutMs.Some? ==> 0 < job.timeoutMs.value <= a.policy.requestTimeoutMs)
    && (job.timeoutMs.None? ==> 0 < a.policy.requestTimeoutMs)
  }

  function Blocked(job: Job, a: Authorized): (r: Option<EgressError>)
    ensures r.None? <==> MayAsk(job, a)
  {
    var denied := R.AuthorizeDestination(job.ctx, job.state, a.policy);
    if denied.Some? then denied
    else if SecretRefused(job, a.policy).Some? then SecretRefused(job, a.policy)
    else if job.fixedBytes + |a.url.text| > a.policy.maxRequestBytes then Some(Budget("request byte cap"))
    else if HopTimeout(job, a.policy) == 0 || HopTimeout(job, a.policy) > a.policy.requestTimeoutMs
    then Some(Budget("request timeout cap"))
    else None
  }

  /** The reservation a hop asks for: the destination's whole response cap and the hop's whole timeout. */
  function BudgetRequest(job: Job, d: Destination, id: string, requestBytes: u64): B.Request {
    B.Request(id, job.ctx.sessionId, d.id, requestBytes, d.maxResponseBytes, HopTimeout(job, d),
              SessionCaps(job.state.policy), DestinationCaps(d))
  }

  // ---------- The trace of a run ----------

  predicate InScope(job: Job, d: Destination) {
    job.scope.Some? ==> d.id == job.scope.value
  }

  /** The job's one snapshot authorizes this URL and method, for this destination, inside the scope. */
  predicate Granted(job: Job, a: Authorized) {
    && job.state.policy.enabled && Lowest(job.state.policy, a.policy, a.url, Upper(job.verb))
    && InScope(job, a.policy)
  }

  /** A reservation the job may ask for: for a granted and permitted hop, its destination's own budget. */
  predicate RequestOk(job: Job, a: Authorized, request: B.Request) {
    && Granted(job, a) && MayAsk(job, a)
    && request.sessionId == job.ctx.sessionId && request.destinationId == a.policy.id
    && request.requestBytes == job.fixedBytes + |a.url.text|
    && request.responseReserved == a.policy.maxResponseBytes
    && (job.timeoutMs.Some? ==> request.timeReservedMs == job.timeoutMs.value)
    && (job.timeoutMs.None? ==> request.timeReservedMs == a.policy.requestTimeoutMs)
    && LimitsAre(request.sessionLimits, job.state.policy.sessionLimits)
    && DestinationLimitsAre(request.destinationLimits, a.policy)
  }

  predicate HopOk(job: Job, hop: Hop) {
    RequestOk(job, hop.destination, hop.request) && hop.bytes <= hop.request.responseReserved
  }

  /** Redirects stay on the destination or follow one of its edges. */
  predicate Follows(from: Destination, to: Destination) {
    to.id == from.id || to.id in from.redirectTo
  }

  predicate TraceOk(job: Job, trace: seq<Hop>) {
    && (forall k :: 0 <= k < |trace| ==> HopOk(job, trace[k]))
    && (forall k :: 0 < k < |trace| ==> Follows(trace[k - 1].destination.policy, trace[k].destination.policy))
  }

  function SettleOf(hop: Hop): B.Op {
    B.Settle(B.ReservationFor(hop.request), hop.bytes, hop.elapsedMs)
  }

  /** The calls on the book of one hop, other callers' included. */
  function HopCalls(hop: Hop, others: Meanwhile): seq<B.Op> {
    others.before + ([B.Reserve(hop.request)] + others.during + [SettleOf(hop)])
  }

  /** All calls on the book during the traced hops, in order. */
  function BookCalls(trace: seq<Hop>, others: seq<Meanwhile>): seq<B.Op>
    requires |trace| <= |others|
  {
    if trace == [] then []
    else
      var n := |trace| - 1;
      BookCalls(trace[..n], others) + HopCalls(trace[n], others[n])
  }

  /** The calls on the book of a hop whose reservation is refused; none if it was stopped earlier. */
  function RefusedCalls(refused: Option<B.Request>, others: Meanwhile): seq<B.Op> {
    if refused.None? then [] else others.before + [B.Reserve(refused.value)]
  }

  /** All calls on the book during a run. */
  function RunCalls(trace: seq<Hop>, refused: Option<B.Request>, others: seq<Meanwhile>): seq<B.Op>
    requires |trace| <= |others| && (refused.Some? ==> |trace| < |others|)
  {
    BookCalls(trace, others) + if refused.None? then [] else RefusedCalls(refused, others[|trace|])
  }

  // ---------- What the book keeps for the run's reservations ----------

  /** A call that neither clears the session nor names the reservation. */
  predicate Untouched(op: B.Op, sid: string, rid: string) {
    match op
    case Reserve(req) => req.sessionId != sid || req.reservationId != rid
    case Settle(res, _, _) => res.sessionId != sid || res.reservationId != rid
    case Clear(id) => id != sid
  }

  predicate AllUntouched(ops: seq<B.Op>, sid: string, rid: string) {
    forall i :: 0 <= i < |ops| ==> Untouched(ops[i], sid, rid)
  }

  lemma {:induction false} CallKeepsOthers(sessions: B.Sessions, op: B.Op, sid: string, rid: string)
    requires Untouched(op, sid, rid)
    ensures L.Has(B.Apply(sessions, op).0, sid, rid) <==> L.Has(sessions, sid, rid)
    ensures L.Has(sessions, sid, rid) ==>
              L.RecordOf(B.Apply(sessions, op).0, sid, rid) == L.RecordOf(sessions, sid, rid)
  {
  }

  lemma {:induction false} CallsKeepOthers(sessions: B.Sessions, ops: seq<B.Op>, sid: string, rid: string)
    requires AllUntouched(ops, sid, rid)
    ensures L.Has(B.Run(sessions, ops), sid, rid) <==> L.Has(sessions, sid, rid)
    ensures L.Has(sessions, sid, rid) ==>
              L.RecordOf(B.Run(sessions, ops), sid, rid) == L.RecordOf(sessions, sid, rid)
    decreases |ops|
  {
    if ops != [] {
      CallsKeepOthers(sessions, ops[..|ops| - 1], sid, rid);
      CallKeepsOthers(B.Run(sessions, ops[..|ops| - 1]), ops[|ops| - 1], sid, rid);
    }
  }

  lemma {:induction false} RunsConcat(sessions: B.Sessions, a: seq<B.Op>, b: seq<B.Op>)
    ensures B.Run(sessions, a + b) == B.Run(B.Run(sessions, a), b)
    decreases |b|
  {
    if b == [] {
      assert a + b == a;
    } else {
      RunsConcat(sessions, a, b[..|b| - 1]);
      assert (a + b)[..|a + b| - 1] == a + b[..|b| - 1];
    }
  }

  lemma {:induction false} OneCall(sessions: B.Sessions, op: B.Op)
    ensures B.Run(sessions, [op]) == B.Apply(sessions, op).0
  {
    assert [op][..0] == [];
  }

  /** The hop's reservation is settled, with what the hop used. */
  predicate IsSettled(sessions: B.Sessions, hop: Hop) {
    && L.Has(sessions, hop.request.sessionId, hop.request.reservationId)
    && L.RecordOf(sessions, hop.request.sessionId, hop.request.reservationId)
       == B.Record(B.ReservationFor(hop.request), hop.request.requestBytes, true, hop.bytes, hop.elapsedMs)
  }

  /** Reserve, whatever others do that leaves it alone, and settle: the record is settled, without error. */
  lemma {:induction false} ReservedThenSettled(sessions: B.Sessions, hop: Hop, others: seq<B.Op>)
    requires L.AllFiled(sessions) && !L.Has(sessions, hop.request.sessionId, hop.request.reservationId)
    requires B.Apply(sessions, B.Reserve(hop.request)).1.Reserved?
    requires AllUntouched(others, hop.request.sessionId, hop.request.reservationId)
    ensures var after := B.Apply(B.Run(B.Apply(sessions, B.Reserve(hop.request)).0, others), SettleOf(hop));
            after.1 == B.Done && IsSettled(after.0, hop)
  {
    var reserved := B.Apply(sessions, B.Reserve(hop.request)).0;
    L.CallKeepsFiled(sessions, B.Reserve(hop.request));
    L.RecordsStayFiled(reserved, others);
    CallsKeepOthers(reserved, others, hop.request.sessionId, hop.request.reservationId);
  }

  // ---------- The book between hops ----------

  /** Other callers draw other reservation ids. */
  predicate ForeignCalls(ops: seq<B.Op>, sid: string, ids: seq<string>) {
    forall i :: 0 <= i < |ops| ==>
      && (ops[i].Reserve? && ops[i].request.sessionId == sid ==> ops[i].request.reservationId !in ids)
      && (ops[i].Settle? && ops[i].reservation.sessionId == sid ==> ops[i].reservation.reservationId !in ids)
  }

  predicate Foreign(others: Meanwhile, sid: string, ids: seq<string>) {
    ForeignCalls(others.before, sid, ids) && ForeignCalls(others.during, sid, ids)
  }

  predicate NoClear(ops: seq<B.Op>, sid: string) {
    forall i :: 0 <= i < |ops| ==> ops[i] != B.Clear(sid)
  }

  lemma {:induction false} NoClearSplits(a: seq<B.Op>, b: seq<B.Op>, sid: string)
    requires NoClear(a + b, sid)
    ensures NoClear(a, sid) && NoClear(b, sid)
  {
    assert forall i :: 0 <= i < |a| ==> (a + b)[i] == a[i];
    assert forall i :: 0 <= i < |b| ==> (a + b)[|a| + i] == b[i];
  }

  lemma {:induction false} AbsentStays(sessions: B.Sessions, ops: seq<B.Op>, sid: string, rid: string)
    requires !L.Has(sessions, sid, rid)
    requires forall i :: 0 <= i < |ops| ==>
               !(ops[i].Reserve? && ops[i].request.sessionId == sid && ops[i].request.reservationId == rid)
    ensures !L.Has(B.Run(sessions, ops), sid, rid)
    decreases |ops|
  {
    if ops != [] {
      AbsentStays(sessions, ops[..|ops| - 1], sid, rid);
    }
  }

  /** The book when the hop settles, and its answer, if the hop began with the book `sessions`. */
  function Settling(sessions: B.Sessions, hop: Hop, others: Meanwhile): (B.Sessions, B.Answer) {
    var reserved := B.Apply(B.Run(sessions, others.before), B.Reserve(hop.request)).0;
    B.Apply(B.Run(reserved, others.during), SettleOf(hop))
  }

  lemma {:induction false} HopCallsRun(sessions: B.Sessions, hop: Hop, others: Meanwhile)
    ensures B.Run(sessions, HopCalls(hop, others)) == Settling(sessions, hop, others).0
  {
    var first, last := [B.Reserve(hop.request)], [SettleOf(hop)];
    var before := B.Run(sessions, others.before);
    RunsConcat(sessions, others.before, first + others.during + last);
    RunsConcat(before, first + others.during, last);
    RunsConcat(before, first, others.during);
    OneCall(before, B.Reserve(hop.request));
    OneCall(B.Run(before, first + others.during), SettleOf(hop));
  }

  /** Unless one of the calls clears the session, every hop's reservation is settled. */
  predicate SettledUnlessCleared(sessions: B.Sessions, sid: string, trace: seq<Hop>, calls: seq<B.Op>) {
    NoClear(calls, sid) ==> forall k :: 0 <= k < |trace| ==> IsSettled(sessions, trace[k])
  }

  predicate DistinctIds(ids: seq<string>) {
    forall i, j :: 0 <= i < j < |ids| ==> ids[i] != ids[j]
  }

  /** What the book holds between hops for the run's own reservation ids. */
  ghost predicate BookOk(
    sessions: B.Sessions, was: B.Sessions, sid: string, ids: seq<string>, trace: seq<Hop>, others: seq<Meanwhile>)
  {
    && |trace| <= |ids| && |trace| <= |others|
    && sessions == B.Run(was, BookCalls(trace, others))
    && L.AllFiled(sessions)
    && (forall k :: |trace| <= k < |ids| ==> !L.Has(sessions, sid, ids[k]))
    && SettledUnlessCleared(sessions, sid, trace, BookCalls(trace, others))
  }

  predicate OwnIds(trace: seq<Hop>, sid: string, ids: seq<string>) {
    && |trace| <= |ids|
    && (forall k :: 0 <= k < |trace| ==>
          trace[k].request.sessionId == sid && trace[k].request.reservationId == ids[k])
  }

  lemma {:induction false} HopSettles(sessions: B.Sessions, hop: Hop, others: Meanwhile, ids: seq<string>)
    requires L.AllFiled(sessions)
    requires !L.Has(B.Run(sessions, others.before), hop.request.sessionId, hop.request.reservationId)
    requires B.Apply(B.Run(sessions, others.before), B.Reserve(hop.request)).1.Reserved?
    requires Foreign(others, hop.request.sessionId, ids) && hop.request.reservationId in ids
    requires NoClear(HopCalls(hop, others), hop.request.sessionId)
    ensures IsSettled(B.Run(sessions, HopCalls(hop, others)), hop)
  {
    HopCallsRun(sessions, hop, others);
    L.RecordsStayFiled(sessions, others.before);
    var rest := [B.Reserve(hop.request)] + others.during;
    NoClearSplits(others.before, rest + [SettleOf(hop)], hop.request.sessionId);
    NoClearSplits(rest, [SettleOf(hop)], hop.request.sessionId);
    NoClearSplits([B.Reserve(hop.request)], others.during, hop.request.sessionId);
    ReservedThenSettled(B.Run(sessions, others.before), hop, others.during);
  }

  /** Calls by others, and hops with other ids, leave a settled reservation settled. */
  lemma {:induction false} StaysSettled(sessions: B.Sessions, calls: seq<B.Op>, hop: Hop)
    requires IsSettled(sessions, hop)
    requires AllUntouched(calls, hop.request.sessionId, hop.request.reservationId)
    ensures IsSettled(B.Run(sessions, calls), hop)
  {
    CallsKeepOthers(sessions, calls, hop.request.sessionId, hop.request.reservationId);
  }

  lemma {:induction false} HopKeepsAbsent(
    sessions: B.Sessions, hop: Hop, others: Meanwhile, ids: seq<string>, rid: string)
    requires !L.Has(sessions, hop.request.sessionId, rid) && hop.request.reservationId != rid
    requires Foreign(others, hop.request.sessionId, ids) && rid in ids
    ensures !L.Has(B.Run(sessions, HopCalls(hop, others)), hop.request.sessionId, rid)
  {
    AbsentStays(sessions, HopCalls(hop, others), hop.request.sessionId, rid);
  }

  /** One more hop keeps the earlier hops settled. */
  lemma {:induction false} EarlierStaySettled(
    sessions: B.Sessions, sid: string, ids: seq<string>, trace: seq<Hop>, calls: seq<B.Op>)
    requires OwnIds(trace, sid, ids)
    requires forall k :: 0 <= k < |trace| ==> IsSettled(sessions, trace[k]) && AllUntouched(calls, sid, ids[k])
    ensures forall k :: 0 <= k < |trace| ==> IsSettled(B.Run(sessions, calls), trace[k])
  {
    forall k | 0 <= k < |trace| ensures IsSettled(B.Run(sessions, calls), trace[k]) {
      StaysSettled(sessions, calls, trace[k]);
    }
  }

  lemma {:induction false} HopKeepsSettled(
    sessions: B.Sessions, sid: string, ids: seq<string>, trace: seq<Hop>, before: seq<B.Op>, hop: Hop,
    others: Meanwhile)
    requires SettledUnlessCleared(sessions, sid, trace, before) && L.AllFiled(sessions)
    requires DistinctIds(ids) && OwnIds(trace + [hop], sid, ids) && Foreign(others, sid, ids)
    requires !L.Has(B.Run(sessions, others.before), sid, hop.request.reservationId)
    requires B.Apply(B.Run(sessions, others.before), B.Reserve(hop.request)).1.Reserved?
    ensures SettledUnlessCleared(
              B.Run(sessions, HopCalls(hop, others)), sid, trace + [hop], before + HopCalls(hop, others))
  {
    var calls, n := HopCalls(hop, others), |trace|;
    assert (trace + [hop])[n] == hop && forall k :: 0 <= k < n ==> (trace + [hop])[k] == trace[k];
    if NoClear(before + calls, sid) {
      NoClearSplits(before, calls, sid);
      HopSettles(sessions, hop, others, ids);
      EarlierStaySettled(sessions, sid, ids, trace, calls);
    }
  }

  lemma {:induction false} HopKeepsBook(
    sessions: B.Sessions, was: B.Sessions, sid: string, ids: seq<string>, trace: seq<Hop>, others: seq<Meanwhile>,
    hop: Hop)
    requires BookOk(sessions, was, sid, ids, trace, others)
    requires |trace| < |ids| && |trace| < |others|
    requires DistinctIds(ids)
    requires Foreign(others[|trace|], sid, ids)
    requires OwnIds(trace + [hop], sid, ids)
    requires !L.Has(B.Run(sessions, others[|trace|].before), sid, hop.request.reservationId)
    requires B.Apply(B.Run(sessions, others[|trace|].before), B.Reserve(hop.request)).1.Reserved?
    ensures BookOk(B.Run(sessions, HopCalls(hop, others[|trace|])), was, sid, ids, trace + [hop], others)
  {
    var n := |trace|;
    var calls := HopCalls(hop, others[n]);
    assert (trace + [hop])[n] == hop && (trace + [hop])[..n] == trace;
    RunsConcat(was, BookCalls(trace, others), calls);
    L.RecordsStayFiled(sessions, calls);
    forall k | n < k < |ids| ensures !L.Has(B.Run(sessions, calls), sid, ids[k]) {
      HopKeepsAbsent(sessions, hop, others[n], ids, ids[k]);
    }
    HopKeepsSettled(sessions, sid, ids, trace, BookCalls(trace, others), hop, others[n]);
  }

  lemma {:induction false} RefusalKeepsSettled(
    sessions: B.Sessions, sid: string, ids: seq<string>, trace: seq<Hop>, before: seq<B.Op>, request: B.Request,
    others: Meanwhile)
    requires SettledUnlessCleared(sessions, sid, trace, before) && OwnIds(trace, sid, ids)
    requires DistinctIds(ids) && Foreign(others, sid, ids)
    requires |trace| < |ids| && request.reservationId == ids[|trace|]
    ensures var calls := others.before + [B.Reserve(request)];
            SettledUnlessCleared(B.Run(sessions, calls), sid, trace, before + calls)
  {
    var calls := others.before + [B.Reserve(request)];
    if NoClear(before + calls, sid) {
      NoClearSplits(before, calls, sid);
      EarlierStaySettled(sessions, sid, ids, trace, calls);
    }
  }

  // ---------- The loop ----------

  /** How a hop ended: stopped before it was sent, or performed and settled. */
  datatype HopEnd =
    | Stopped(error: EgressError, refused: Option<B.Request>)
    | Performed(hop: Hop, answer: Result<HopResponse, EgressError>)

  /**
   Why a hop stops before it is sent: it may not ask, or the book, as it is when the hop asks, refuses. So a
   stopped hop has reserved nothing.
   */
  ghost predicate StopsRight(
    job: Job, a: Authorized, id: string, sessions: B.Sessions, others: Meanwhile,
    error: EgressError, refused: Option<B.Request>)
  {
    match refused
    case None => Blocked(job, a) == Some(error)
    case Some(request) =>
      && RequestOk(job, a, request) && request.reservationId == id
      && B.Apply(B.Run(sessions, others.before), B.Reserve(request)).1 == B.Refused(error)
  }

  lemma {:induction false} FirstReserveAnswer(sessions: B.Sessions, request: B.Request)
    requires !L.Has(sessions, request.sessionId, request.reservationId)
    requires B.Apply(sessions, B.Reserve(request)).1.Reserved?
    ensures B.Apply(sessions, B.Reserve(request)).1 == B.Reserved(B.ReservationFor(request))
  {
  }

  lemma {:induction false} RefusedCallsRun(sessions: B.Sessions, request: B.Request, others: Meanwhile)
    ensures B.Run(sessions, RefusedCalls(Some(request), others))
            == B.Apply(B.Run(sessions, others.before), B.Reserve(request)).0
  {
    RunsConcat(sessions, others.before, [B.Reserve(request)]);
    OneCall(B.Run(sessions, others.before), B.Reserve(request));
  }

  /** The hop's use is what the reply allows. */
  predicate Performs(hop: Hop, reply: Reply) {
    hop.bytes == BytesOf(Outcome(hop.destination.policy, reply)) && hop.elapsedMs == reply.tookMs
  }

  /** The hop was allowed, and was reserved and settled, between the book `was` and the book `now`. */
  ghost predicate HopMade(
    job: Job, id: string, was: B.Sessions, others: Meanwhile, now: B.Sessions, hop: Hop)
  {
    && HopOk(job, hop) && hop.request.reservationId == id && hop.request.sessionId == job.ctx.sessionId
    && B.Apply(B.Run(was, others.before), B.Reserve(hop.request)).1.Reserved?
    && now == B.Run(was, HopCalls(hop, others))
  }

  /** The book's error if settling fails, else what the reply means. */
  function AnswerOf(sessions: B.Sessions, hop: Hop, others: Meanwhile, reply: Reply)
    : Result<HopResponse, EgressError>
  {
    match Settling(sessions, hop, others).1
    case Refused(error) => Err(error)
    case _ => Outcome(hop.destination.policy, reply)
  }

  lemma {:induction false} AskedRight(job: Job, a: Authorized, id: string, request: B.Request)
    requires Granted(job, a) && MayAsk(job, a)
    requires request == BudgetRequest(job, a.policy, id, job.fixedBytes + |a.url.text|)
    ensures RequestOk(job, a, request)
  {
  }

  /** Authorize, reserve, perform and settle one hop. The reply decides the answer unless settling fails. */
  method OneHop(book: B.BudgetBook, job: Job, destination: Authorized, reply: Reply, id: string, others: Meanwhile)
    returns (end: HopEnd)
    requires Granted(job, destination) && !L.Has(B.Run(book.sessions, others.before), job.ctx.sessionId, id)
    modifies book
    ensures end.Stopped? ==>
              && StopsRight(job, destination, id, old(book.sessions), others, end.error, end.refused)
              && book.sessions == B.Run(old(book.sessions), RefusedCalls(end.refused, others))
    ensures end.Performed? ==>
              && end.hop.destination == destination && Performs(end.hop, reply)
              && HopMade(job, id, old(book.sessions), others, book.sessions, end.hop)
              && end.answer == AnswerOf(old(book.sessions), end.hop, others, reply)
  {
    var d := destination.policy;
    var denied := Blocked(job, destination);
    if denied.Some? {
      return Stopped(denied.value, None);
    }
    var request := BudgetRequest(job, d, id, job.fixedBytes + |destination.url.text|);
    AskedRight(job, destination, id, request);
    ghost var was := book.sessions;
    book.sessions := B.Run(book.sessions, others.before);
    ghost var before := book.sessions;
    var reservation := book.ReserveBudget(request);
    if reservation.Err? {
      RefusedCallsRun(was, request, others);
      return Stopped(reservation.error, Some(request));
    }
    FirstReserveAnswer(before, request);
    var answer := PerformHop(d, reply);
    book.sessions := B.Run(book.sessions, others.during);
    var hop := Hop(destination, request, BytesOf(answer), reply.tookMs);
    HopCallsRun(was, hop, others);
    var settled := book.SettleBudget(reservation.value, hop.bytes, hop.elapsedMs);
    return Performed(hop, if settled.Err? then Err(settled.error) else answer);
  }

  /** Where a redirect leads, if anywhere. */
  function NextHop(job: Job, from: Destination, joined: Option<Url>, redirects: nat, cap: nat)
    : (r: Result<Authorized, EgressError>)
    requires WellFormed(job.state.policy)
    ensures r.Ok? ==>
              && FollowsRedirects(job) && redirects < cap
              && joined == Some(r.value.url) && Granted(job, r.value) && Follows(from, r.value.policy)
  {
    if !FollowsRedirects(job) then Err(Denied("non-GET redirects are forbidden"))
    else if redirects >= cap then Err(Denied("redirect cap exceeded"))
    else if joined.None? then Err(Denied("invalid redirect location"))
    else
      var next := Authorize(job.state.policy, joined.value.text, joined, job.verb);
      if next.Err? then Err(next.error)
      else if job.scope.Some? && next.value.policy.id != job.scope.value
      then Err(Denied("redirect escaped the scoped destination"))
      else if next.value.policy.id != from.id && next.value.policy.id !in from.redirectTo
      then Err(Denied("redirect destination is not allowlisted by the current hop"))
      else next
  }

  /** A redirect is followed exactly by a read, within the cap, to a granted URL that an edge allows. */
  lemma {:induction false} NextHopIff(
    job: Job, from: Destination, joined: Option<Url>, redirects: nat, cap: nat, next: Authorized)
    requires WellFormed(job.state.policy)
    ensures NextHop(job, from, joined, redirects, cap) == Ok(next) <==>
            && Upper(job.verb) in ["GET", "HEAD"] && redirects < cap
            && joined == Some(next.url) && |next.url.text| <= MAX_URL_BYTES
            && next.url.shapeAllowed && next.url.port.Some?
            && job.state.policy.enabled && Lowest(job.state.policy, next.policy, next.url, Upper(job.verb))
            && (job.scope.Some? ==> next.policy.id == job.scope.value)
            && (next.policy.id == from.id || next.policy.id in from.redirectTo)
  {
    if joined.Some? {
      AuthorizeIff(job.state.policy, joined.value.text, joined, job.verb, next);
    }
  }

  datatype Decision = Stop(result: Result<HttpResponse, EgressError>) | Go(next: Authorized)

  /** What a performed hop's answer means for the run. */
  function Decide(job: Job, from: Destination, answer: Result<HopResponse, EgressError>, redirects: nat, cap: nat)
    : (r: Decision)
    requires WellFormed(job.state.policy)
    ensures r.Go? ==>
              redirects < cap && FollowsRedirects(job) && Granted(job, r.next) && Follows(from, r.next.policy)
    ensures r.Stop? && r.result.Ok? ==>
              && r.result.value.redirects == redirects && r.result.value.responseBytes == BytesOf(answer)
              && r.result.value.destinationId == from.id
  {
    if answer.Err? then Stop(Err(answer.error))
    else match answer.value
      case Final(status, content, bytes) =>
        Stop(Ok(HttpResponse(status, content.text, content.contentType, from.id, bytes, redirects,
                             content.redactions)))
      case Redirect(_, joined) =>
        var next := NextHop(job, from, joined, redirects, cap);
        if next.Err? then Stop(Err(next.error)) else Go(next.value)
  }

  /** What is due after `k` hops: the first hop, or what the last hop's reply means. */
  function Due(job: Job, start: Authorized, replies: seq<Reply>, trace: seq<Hop>, k: nat): Decision
    requires WellFormed(job.state.policy) && k <= |trace| && k <= |replies|
  {
    if k == 0 then Go(start)
    else
      var from := trace[k - 1].destination.policy;
      Decide(job, from, Outcome(from, replies[k - 1]), k - 1, start.policy.maxRedirects)
  }

  /** Every hop goes where the one before it led, and uses what its reply allows. */
  ghost predicate Walked(job: Job, start: Authorized, replies: seq<Reply>, trace: seq<Hop>)
    requires WellFormed(job.state.policy)
  {
    && |trace| <= |replies|
    && (forall k :: 0 <= k < |trace| ==>
          Performs(trace[k], replies[k]) && Due(job, start, replies, trace, k) == Go(trace[k].destination))
  }

  /** The run ended where it should: with the last hop's result, or at a hop that was due and stopped. */
  ghost predicate Ended(
    job: Job, start: Authorized, replies: seq<Reply>, ids: seq<string>, others: seq<Meanwhile>, was: B.Sessions,
    trace: seq<Hop>, refused: Option<B.Request>, r: Result<HttpResponse, EgressError>)
    requires WellFormed(job.state.policy) && |trace| <= |replies| == |ids| == |others|
  {
    match Due(job, start, replies, trace, |trace|)
    case Stop(result) => r == result && refused.None?
    case Go(next) =>
      && |trace| < |ids| && r.Err?
      && StopsRight(job, next, ids[|trace|], B.Run(was, BookCalls(trace, others)), others[|trace|], r.error, refused)
  }

  /** What is due after `k` hops depends on those alone. */
  lemma {:induction false} DueStays(
    job: Job, start: Authorized, replies: seq<Reply>, trace: seq<Hop>, hop: Hop, k: nat)
    requires WellFormed(job.state.policy) && k <= |trace| && k <= |replies|
    ensures Due(job, start, replies, trace + [hop], k) == Due(job, start, replies, trace, k)
  {
  }

  lemma {:induction false} WalkGrows(job: Job, start: Authorized, replies: seq<Reply>, trace: seq<Hop>, hop: Hop)
    requires WellFormed(job.state.policy) && Walked(job, start, replies, trace) && |trace| < |replies|
    requires Performs(hop, replies[|trace|]) && Due(job, start, replies, trace, |trace|) == Go(hop.destination)
    ensures Walked(job, start, replies, trace + [hop])
  {
    var more := trace + [hop];
    forall k | 0 <= k < |more|
      ensures Performs(more[k], replies[k]) && Due(job, start, replies, more, k) == Go(more[k].destination)
    {
      DueStays(job, start, replies, trace, hop, k);
      assert k < |trace| ==> more[k] == trace[k];
    }
  }

  /** What is due after a hop follows it. */
  lemma {:induction false} DueFollows(job: Job, start: Authorized, replies: seq<Reply>, trace: seq<Hop>, to: Authorized)
    requires WellFormed(job.state.policy) && 0 < |trace| <= |replies|
    requires Due(job, start, replies, trace, |trace|) == Go(to)
    ensures Follows(trace[|trace| - 1].destination.policy, to.policy)
  {
  }

  lemma {:induction false} TraceGrows(job: Job, start: Authorized, replies: seq<Reply>, trace: seq<Hop>, hop: Hop)
    requires WellFormed(job.state.policy)
    requires TraceOk(job, trace) && |trace| < |replies|
    requires HopOk(job, hop) && Due(job, start, replies, trace, |trace|) == Go(hop.destination)
    ensures TraceOk(job, trace + [hop])
  {
    var more := trace + [hop];
    if trace != [] {
      DueFollows(job, start, replies, trace, hop.destination);
    }
    forall k | 0 < k < |more| ensures Follows(more[k - 1].destination.policy, more[k].destination.policy) {
      if k < |trace| {
        assert more[k - 1] == trace[k - 1] && more[k] == trace[k];
      }
    }
  }

  /** What holds between two hops of a run that began with the book `was`. */
  ghost predicate Underway(
    job: Job, start: Authorized, replies: seq<Reply>, ids: seq<string>, others: seq<Meanwhile>,
    was: B.Sessions, sessions: B.Sessions, trace: seq<Hop>)
    requires WellFormed(job.state.policy)
  {
    && TraceOk(job, trace) && Walked(job, start, replies, trace)
    && OwnIds(trace, job.ctx.sessionId, ids)
    && BookOk(sessions, was, job.ctx.sessionId, ids, trace, others)
  }

  /** What the book answers to the settlement of hop `k`. */
  function SettlingAt(was: B.Sessions, trace: seq<Hop>, others: seq<Meanwhile>, k: nat): B.Answer
    requires k < |trace| <= |others|
  {
    Settling(B.Run(was, BookCalls(trace[..k], others)), trace[k], others[k]).1
  }

  /** The settlements of the first `n` hops succeeded. */
  ghost predicate Settles(was: B.Sessions, trace: seq<Hop>, others: seq<Meanwhile>, n: nat)
    requires n <= |trace| <= |others|
  {
    forall k :: 0 <= k < n ==> !SettlingAt(was, trace, others, k).Refused?
  }

  lemma {:induction false} SettlesGrows(was: B.Sessions, trace: seq<Hop>, others: seq<Meanwhile>, hop: Hop)
    requires |trace| < |others| && Settles(was, trace, others, |trace|)
    ensures Settles(was, trace + [hop], others, |trace|)
    ensures SettlingAt(was, trace + [hop], others, |trace|)
            == Settling(B.Run(was, BookCalls(trace, others)), hop, others[|trace|]).1
  {
    var more := trace + [hop];
    assert more[..|trace|] == trace;
    forall k | 0 <= k < |trace| ensures !SettlingAt(was, more, others, k).Refused? {
      assert more[..k] == trace[..k];
      assert SettlingAt(was, more, others, k) == SettlingAt(was, trace, others, k);
    }
  }

  /** The run ended with the error of its last settlement, if that failed, and else where it should. */
  ghost predicate EndOk(
    job: Job, start: Authorized, replies: seq<Reply>, ids: seq<string>, others: seq<Meanwhile>, was: B.Sessions,
    trace: seq<Hop>, refused: Option<B.Request>, r: Result<HttpResponse, EgressError>)
    requires WellFormed(job.state.policy) && |trace| <= |replies| == |ids| == |others|
  {
    if trace != [] && SettlingAt(was, trace, others, |trace| - 1).Refused?
    then refused.None? && r == Err(SettlingAt(was, trace, others, |trace| - 1).error)
    else Ended(job, start, replies, ids, others, was, trace, refused, r)
  }

  /** Where a run got to; `now` is the book then. */
  datatype Progress = Progress(trace: seq<Hop>, refused: Option<B.Request>, now: B.Sessions)

  /**
   What a run did. Its hops are in order and within the one policy snapshot; each reservation it made is
   settled once, unless the session is cleared under it; and it ended with the book's error at the first
   settlement that failed, or else with its last reply's result or where a hop that was due may not be made.
   */
  ghost predicate RunOk(
    job: Job, start: Authorized, replies: seq<Reply>, ids: seq<string>, others: seq<Meanwhile>,
    was: B.Sessions, p: Progress, r: Result<HttpResponse, EgressError>)
    requires WellFormed(job.state.policy) && |replies| == |ids| == |others|
  {
    var (trace, refused, sid) := (p.trace, p.refused, job.ctx.sessionId);
    && |trace| <= |replies| && (refused.Some? ==> |trace| < |others|)
    && TraceOk(job, trace) && Walked(job, start, replies, trace) && OwnIds(trace, sid, ids)
    && p.now == B.Run(was, RunCalls(trace, refused, others))
    && SettledUnlessCleared(p.now, sid, trace, RunCalls(trace, refused, others))
    && (trace != [] ==> Settles(was, trace, others, |trace| - 1))
    && EndOk(job, start, replies, ids, others, was, trace, refused, r)
  }

  lemma {:induction false} HopGoesOn(
    job: Job, start: Authorized, replies: seq<Reply>, ids: seq<string>, others: seq<Meanwhile>,
    was: B.Sessions, before: B.Sessions, trace: seq<Hop>, now: B.Sessions, hop: Hop)
    requires WellFormed(job.state.policy) && Underway(job, start, replies, ids, others, was, before, trace)
    requires DistinctIds(ids) && |trace| < |replies| == |ids| == |others|
    requires Foreign(others[|trace|], job.ctx.sessionId, ids)
    requires Due(job, start, replies, trace, |trace|) == Go(hop.destination) && Performs(hop, replies[|trace|])
    requires HopMade(job, ids[|trace|], before, others[|trace|], now, hop)
    ensures Underway(job, start, replies, ids, others, was, now, trace + [hop])
  {
    AbsentStays(before, others[|trace|].before, job.ctx.sessionId, ids[|trace|]);
    TraceGrows(job, start, replies, trace, hop);
    WalkGrows(job, start, replies, trace, hop);
    HopKeepsBook(before, was, job.ctx.sessionId, ids, trace, others, hop);
  }

  lemma {:induction false} StoppedBook(
    sessions: B.Sessions, was: B.Sessions, sid: string, ids: seq<string>, others: seq<Meanwhile>, p: Progress)
    requires BookOk(sessions, was, sid, ids, p.trace, others) && OwnIds(p.trace, sid, ids)
    requires DistinctIds(ids) && |p.trace| < |ids| == |others| && Foreign(others[|p.trace|], sid, ids)
    requires p.refused.Some? ==> p.refused.value.reservationId == ids[|p.trace|]
    requires p.now == B.Run(sessions, RefusedCalls(p.refused, others[|p.trace|]))
    ensures p.now == B.Run(was, RunCalls(p.trace, p.refused, others))
    ensures SettledUnlessCleared(p.now, sid, p.trace, RunCalls(p.trace, p.refused, others))
  {
    var earlier, n := BookCalls(p.trace, others), |p.trace|;
    RunsConcat(was, earlier, RefusedCalls(p.refused, others[n]));
    assert earlier + [] == earlier;
    if p.refused.Some? {
      RefusalKeepsSettled(sessions, sid, ids, p.trace, earlier, p.refused.value, others[n]);
    }
  }

  lemma {:induction false} StoppedRunOk(
    job: Job, start: Authorized, replies: seq<Reply>, ids: seq<string>, others: seq<Meanwhile>,
    was: B.Sessions, before: B.Sessions, a: Authorized, p: Progress, error: EgressError)
    requires WellFormed(job.state.policy) && Underway(job, start, replies, ids, others, was, before, p.trace)
    requires DistinctIds(ids) && |p.trace| < |replies| == |ids| == |others|
    requires Foreign(others[|p.trace|], job.ctx.sessionId, ids)
    requires Due(job, start, replies, p.trace, |p.trace|) == Go(a)
    requires Settles(was, p.trace, others, |p.trace|)
    requires StopsRight(job, a, ids[|p.trace|], before, others[|p.trace|], error, p.refused)
    requires p.now == B.Run(before, RefusedCalls(p.refused, others[|p.trace|]))
    ensures RunOk(job, start, replies, ids, others, was, p, Err(error))
  {
    StoppedBook(before, was, job.ctx.sessionId, ids, others, p);
  }

  /** The last hop's answer, as the book let it be, stops the run with `r`. */
  ghost predicate Decided(
    job: Job, start: Authorized, replies: seq<Reply>, others: seq<Meanwhile>,
    was: B.Sessions, trace: seq<Hop>, answer: Result<HopResponse, EgressError>, r: Result<HttpResponse, EgressError>)
    requires WellFormed(job.state.policy) && 0 < |trace| <= |replies| == |others|
  {
    var n := |trace| - 1;
    && answer == (match SettlingAt(was, trace, others, n)
                  case Refused(error) => Err(error)
                  case _ => Outcome(trace[n].destination.policy, replies[n]))
    && Decide(job, trace[n].destination.policy, answer, n, start.policy.maxRedirects) == Stop(r)
  }

  lemma {:induction false} DecidedEndOk(
    job: Job, start: Authorized, replies: seq<Reply>, ids: seq<string>, others: seq<Meanwhile>,
    was: B.Sessions, trace: seq<Hop>, answer: Result<HopResponse, EgressError>, r: Result<HttpResponse, EgressError>)
    requires WellFormed(job.state.policy) && 0 < |trace| <= |replies| == |ids| == |others|
    requires Decided(job, start, replies, others, was, trace, answer, r)
    ensures EndOk(job, start, replies, ids, others, was, trace, None, r)
  {
  }

  lemma {:induction false} DecidedRunOk(
    job: Job, start: Authorized, replies: seq<Reply>, ids: seq<string>, others: seq<Meanwhile>,
    was: B.Sessions, p: Progress, answer: Result<HopResponse, EgressError>, r: Result<HttpResponse, EgressError>)
    requires WellFormed(job.state.policy) && 0 < |p.trace| <= |replies| == |ids| == |others| && p.refused.None?
    requires Underway(job, start, replies, ids, others, was, p.now, p.trace)
    requires Settles(was, p.trace, others, |p.trace| - 1)
    requires Decided(job, start, replies, others, was, p.trace, answer, r)
    ensures RunOk(job, start, replies, ids, others, was, p, r)
  {
    assert RunCalls(p.trace, None, others) == BookCalls(p.trace, others);
    DecidedEndOk(job, start, replies, ids, others, was, p.trace, answer, r);
  }

  /** The response has the status and the content of the reply. */
  predicate IsReply(r: HttpResponse, reply: Reply) {
    && reply.Body? && r.status == reply.status
    && reply.content == Some(Content(r.body, r.contentType, r.secretRedactions))
    && r.responseBytes == Total(reply.chunks)
  }

  lemma {:induction false} WalkBounds(job: Job, start: Authorized, replies: seq<Reply>, trace: seq<Hop>)
    requires WellFormed(job.state.policy) && Walked(job, start, replies, trace)
    ensures Upper(job.verb) !in ["GET", "HEAD"] ==> |trace| <= 1
    ensures trace != [] ==> trace[0].destination == start
  {
    if |trace| > 1 {
      assert Due(job, start, replies, trace, 1) == Go(trace[1].destination);
    }
    if trace != [] {
      assert Due(job, start, replies, trace, 0) == Go(trace[0].destination);
    }
  }

  lemma {:induction false} EndBounds(
    job: Job, start: Authorized, replies: seq<Reply>, ids: seq<string>, others: seq<Meanwhile>, was: B.Sessions,
    trace: seq<Hop>, refused: Option<B.Request>, r: Result<HttpResponse, EgressError>)
    requires WellFormed(job.state.policy) && |trace| <= |replies| == |ids| == |others|
    requires Walked(job, start, replies, trace)
    requires Ended(job, start, replies, ids, others, was, trace, refused, r) || (r.Err? && refused.None?)
    ensures refused.Some? ==> exists a :: RequestOk(job, a, refused.value)
    ensures r.Ok? ==>
              && trace != [] && r.value.redirects == |trace| - 1
              && r.value.destinationId == trace[|trace| - 1].destination.policy.id
              && r.value.responseBytes == trace[|trace| - 1].bytes
              && IsReply(r.value, replies[|trace| - 1])
  {
    if trace != [] {
      assert Performs(trace[|trace| - 1], replies[|trace| - 1]);
    }
  }

  /** So each hop is made under the first destination's redirect cap, and a result is its last hop's. */
  lemma {:induction false} RunBounds(
    job: Job, start: Authorized, replies: seq<Reply>, ids: seq<string>, others: seq<Meanwhile>,
    was: B.Sessions, p: Progress, r: Result<HttpResponse, EgressError>)
    requires WellFormed(job.state.policy) && Granted(job, start)
    requires |replies| == |ids| == |others| == start.policy.maxRedirects + 1
    requires RunOk(job, start, replies, ids, others, was, p, r)
    ensures |p.trace| <= start.policy.maxRedirects + 1 <= MAX_REDIRECTS + 1
    ensures Upper(job.verb) !in ["GET", "HEAD"] ==> |p.trace| <= 1
    ensures p.trace != [] ==> p.trace[0].destination == start
    ensures p.refused.Some? ==> exists a :: RequestOk(job, a, p.refused.value)
    ensures r.Ok? ==>
              && p.trace != [] && r.value.redirects == |p.trace| - 1
              && r.value.destinationId == p.trace[|p.trace| - 1].destination.policy.id
              && r.value.responseBytes == p.trace[|p.trace| - 1].bytes
              && IsReply(r.value, replies[|p.trace| - 1])
  {
    WalkBounds(job, start, replies, p.trace);
    EndBounds(job, start, replies, ids, others, was, p.trace, p.refused, r);
  }

  /** After a hop the run is over, or goes on where the hop led. */
  lemma {:induction false} HopDecides(
    job: Job, start: Authorized, replies: seq<Reply>, ids: seq<string>, others: seq<Meanwhile>,
    was: B.Sessions, before: B.Sessions, trace: seq<Hop>, now: B.Sessions, hop: Hop, decision: Decision)
    requires WellFormed(job.state.policy) && Underway(job, start, replies, ids, others, was, before, trace)
    requires DistinctIds(ids) && |trace| < |replies| == |ids| == |others|
    requires Foreign(others[|trace|], job.ctx.sessionId, ids) && Settles(was, trace, others, |trace|)
    requires Due(job, start, replies, trace, |trace|) == Go(hop.destination) && Performs(hop, replies[|trace|])
    requires HopMade(job, ids[|trace|], before, others[|trace|], now, hop)
    requires var answer := AnswerOf(before, hop, others[|trace|], replies[|trace|]);
             decision == Decide(job, hop.destination.policy, answer, |trace|, start.policy.maxRedirects)
    ensures decision.Stop? ==>
              RunOk(job, start, replies, ids, others, was, Progress(trace + [hop], None, now), decision.result)
    ensures decision.Go? ==>
              && Underway(job, start, replies, ids, others, was, now, trace + [hop])
              && Settles(was, trace + [hop], others, |trace| + 1)
              && Due(job, start, replies, trace + [hop], |trace| + 1) == decision
  {
    var answer := AnswerOf(before, hop, others[|trace|], replies[|trace|]);
    HopGoesOn(job, start, replies, ids, others, was, before, trace, now, hop);
    SettlesGrows(was, trace, others, hop);
    if decision.Stop? {
      DecidedRunOk(job, start, replies, ids, others, was, Progress(trace + [hop], None, now), answer, decision.result);
    }
  }

  /** A run scoped to its first destination never leaves that destination's entry. */
  lemma {:induction false} ScopedRunStays(
    job: Job, start: Authorized, replies: seq<Reply>, ids: seq<string>, others: seq<Meanwhile>,
    was: B.Sessions, p: Progress, r: Result<HttpResponse, EgressError>)
    requires WellFormed(job.state.policy) && |replies| == |ids| == |others|
    requires Granted(job, start) && job.scope == Some(start.policy.id)
    requires RunOk(job, start, replies, ids, others, was, p, r)
    ensures forall k :: 0 <= k < |p.trace| ==> p.trace[k].destination.policy == start.policy
  {
    forall k | 0 <= k < |p.trace| ensures p.trace[k].destination.policy == start.policy {
      assert HopOk(job, p.trace[k]);
    }
  }

  /** One more hop of a run that is under way: the run is over, or goes on at `next`. */
  method HopOfRun(
    book: B.BudgetBook, job: Job, start: Authorized, replies: seq<Reply>, ids: seq<string>, others: seq<Meanwhile>,
    ghost was: B.Sessions, trace: seq<Hop>, destination: Authorized)
    returns (decision: Decision, more: seq<Hop>, refused: Option<B.Request>)
    requires WellFormed(job.state.policy) && Underway(job, start, replies, ids, others, was, book.sessions, trace)
    requires DistinctIds(ids) && |trace| < |replies| == |ids| == |others|
    requires Granted(job, destination) && Due(job, start, replies, trace, |trace|) == Go(destination)
    requires Foreign(others[|trace|], job.ctx.sessionId, ids) && Settles(was, trace, others, |trace|)
    modifies book
    ensures decision.Stop? ==>
              RunOk(job, start, replies, ids, others, was, Progress(more, refused, book.sessions), decision.result)
    ensures decision.Go? ==>
              && refused == None && |more| == |trace| + 1 <= start.policy.maxRedirects
              && Underway(job, start, replies, ids, others, was, book.sessions, more)
              && Settles(was, more, others, |more|)
              && Granted(job, decision.next) && Due(job, start, replies, more, |more|) == decision
  {
    var n := |trace|;
    ghost var before := book.sessions;
    AbsentStays(before, others[n].before, job.ctx.sessionId, ids[n]);
    var end := OneHop(book, job, destination, replies[n], ids[n], others[n]);
    if end.Stopped? {
      decision, more, refused := Stop(Err(end.error)), trace, end.refused;
      StoppedRunOk(job, start, replies, ids, others, was, before, destination,
                   Progress(more, refused, book.sessions), end.error);
      return;
    }
    decision := Decide(job, end.hop.destination.policy, end.answer, n, start.policy.maxRedirects);
    more, refused := trace + [end.hop], None;
    HopDecides(job, start, replies, ids, others, was, before, trace, book.sessions, end.hop, decision);
  }

  /**
   The redirect loop. It makes at most the first destination's redirect cap and one hops, one only for a
   method that does not follow redirects, each where the last reply led.
   */
  method ExecuteHops(
    book: B.BudgetBook, job: Job, start: Authorized,
    replies: seq<Reply>, ids: seq<string>, others: seq<Meanwhile>)
    returns (r: Result<HttpResponse, EgressError>, trace: seq<Hop>, refused: Option<B.Request>)
    requires WellFormed(job.state.policy) && Granted(job, start)
    requires |replies| == |ids| == |others| == start.policy.maxRedirects + 1
    requires DistinctIds(ids)
    requires forall k :: 0 <= k < |others| ==> Foreign(others[k], job.ctx.sessionId, ids)
    requires L.AllFiled(book.sessions)
    requires forall k :: 0 <= k < |ids| ==> !L.Has(book.sessions, job.ctx.sessionId, ids[k])
    modifies book
    ensures RunOk(job, start, replies, ids, others, old(book.sessions), Progress(trace, refused, book.sessions), r)
    ensures |trace| <= start.policy.maxRedirects + 1 <= MAX_REDIRECTS + 1
    ensures Upper(job.verb) !in ["GET", "HEAD"] ==> |trace| <= 1
  {
    var destination, redirects := start, 0;
    trace, refused := [], None;
    ghost var was := book.sessions;
    while true
      invariant redirects == |trace| <= start.policy.maxRedirects && refused == None
      invariant Underway(job, start, replies, ids, others, was, book.sessions, trace)
      invariant Settles(was, trace, others, |trace|)
      invariant Granted(job, destination) && Due(job, start, replies, trace, |trace|) == Go(destination)
      decreases start.policy.maxRedirects - redirects
    {
      var decision;
      decision, trace, refused := HopOfRun(book, job, start, replies, ids, others, was, trace, destination);
      if decision.Stop? {
        r := decision.result;
        break;
      }
      destination := decision.next;
      redirects := redirects + 1;
    }
    RunBounds(job, start, replies, ids, others, was, Progress(trace, refused, book.sessions), r);
  }

  // ---------- Caps over every run of hops ----------

  /** A call of some run under policy `p`: the reservation or the settlement of one of its hops, or a clear. */
  ghost predicate IsHopCall(p: Policy, op: B.Op) {
    match op
    case Reserve(req) => exists job: Job, a :: job.state.policy == p && RequestOk(job, a, req)
    case Settle(_, _, _) => exists job: Job, hop :: job.state.policy == p && HopOk(job, hop) && op == SettleOf(hop)
    case Clear(_) => true
  }

  ghost predicate AllHopCalls(p: Policy, ops: seq<B.Op>) {
    forall i :: 0 <= i < |ops| ==> IsHopCall(p, ops[i])
  }

  function CapsPerDestination(p: Policy): map<string, B.Limits> {
    map d | d in p.destinations :: DestinationCaps(p.destinations[d])
  }

  /** What a session used, and still has reserved, is within the limits the policy configures for sessions. */
  predicate WithinSession(u: B.Usage, l: SessionLimits) {
    && u.requests <= l.maxRequests
    && u.requestBytes <= l.maxRequestBytes
    && u.responseBytes + u.responseReserved <= l.maxResponseBytes
    && u.timeMs + u.timeReservedMs <= l.maxTimeMs
  }

  /** The same of what it used of a destination, and the limits the policy configures for that one. */
  predicate WithinDestination(u: B.Usage, d: Destination) {
    && u.requests <= d.maxRequestsPerSession
    && u.requestBytes <= d.maxRequestBytesPerSession
    && u.responseBytes + u.responseReserved <= d.maxResponseBytesPerSession
    && u.timeMs + u.timeReservedMs <= d.maxTimeMsPerSession
  }

  ghost predicate WithinPolicy(sessions: B.Sessions, p: Policy) {
    forall id :: id in sessions ==>
      && WithinSession(sessions[id].total, p.sessionLimits)
      && (forall d :: d in sessions[id].destinations ==>
            d in p.destinations && WithinDestination(sessions[id].destinations[d], p.destinations[d]))
  }

  predicate LimitsBelowMax(l: SessionLimits) {
    l.maxRequestBytes < U64_MAX && l.maxResponseBytes < U64_MAX && l.maxTimeMs < U64_MAX
  }

  lemma {:induction false} CapsAreLimits(sessions: B.Sessions, p: Policy)
    requires L.AllWithin(sessions, SessionCaps(p), CapsPerDestination(p))
    ensures WithinPolicy(sessions, p)
  {
    forall id | id in sessions
      ensures WithinSession(sessions[id].total, p.sessionLimits)
      ensures forall d :: d in sessions[id].destinations ==>
                d in p.destinations && WithinDestination(sessions[id].destinations[d], p.destinations[d])
    {
      assert L.SessionWithin(sessions[id], SessionCaps(p), CapsPerDestination(p));
    }
  }

  /**
   The streaming limit makes every hop settle within its reservation: over any calls of any runs under one
   policy, interleaved in any way, used plus reserved never exceeds what the policy configures for a session or
   for a destination.
   */
  lemma {:induction false} HopsKeepCaps(p: Policy, ops: seq<B.Op>)
    requires LimitsBelowMax(p.sessionLimits) && AllHopCalls(p, ops)
    ensures WithinPolicy(B.Run(map[], ops), p)
    ensures L.AllSound(B.Run(map[], ops))
  {
    forall i | 0 <= i < |ops|
      ensures L.Admissible(ops[i]) && L.UsesLimits(ops[i], SessionCaps(p), CapsPerDestination(p))
    {
      assert IsHopCall(p, ops[i]);
    }
    L.CapsHold(ops, SessionCaps(p), CapsPerDestination(p));
    L.Conservation(ops);
    CapsAreLimits(B.Run(map[], ops), p);
  }

  ghost predicate OthersHop(p: Policy, others: seq<Meanwhile>) {
    forall k :: 0 <= k < |others| ==> AllHopCalls(p, others[k].before) && AllHopCalls(p, others[k].during)
  }

  lemma {:induction false} HopCallsHop(job: Job, hop: Hop, others: Meanwhile)
    requires HopOk(job, hop)
    requires AllHopCalls(job.state.policy, others.before) && AllHopCalls(job.state.policy, others.during)
    ensures AllHopCalls(job.state.policy, HopCalls(hop, others))
  {
    assert IsHopCall(job.state.policy, B.Reserve(hop.request)) && IsHopCall(job.state.policy, SettleOf(hop));
  }

  lemma {:induction false} BookCallsHop(job: Job, trace: seq<Hop>, others: seq<Meanwhile>)
    requires TraceOk(job, trace) && |trace| <= |others| && OthersHop(job.state.policy, others)
    ensures AllHopCalls(job.state.policy, BookCalls(trace, others))
    decreases |trace|
  {
    if trace != [] {
      var n := |trace| - 1;
      BookCallsHop(job, trace[..n], others);
      HopCallsHop(job, trace[n], others[n]);
    }
  }

  /** Every call a run makes, its refused reservation included, is one of its hops'. */
  lemma {:induction false} RunCallsHop(
    job: Job, trace: seq<Hop>, refused: Option<B.Request>, others: seq<Meanwhile>)
    requires TraceOk(job, trace) && |trace| <= |others| && OthersHop(job.state.policy, others)
    requires refused.Some? ==> |trace| < |others| && exists a :: RequestOk(job, a, refused.value)
    ensures AllHopCalls(job.state.policy, RunCalls(trace, refused, others))
  {
    BookCallsHop(job, trace, others);
  }

  lemma {:induction false} CallsKeepCaps(p: Policy, earlier: seq<B.Op>, calls: seq<B.Op>)
    requires LimitsBelowMax(p.sessionLimits) && AllHopCalls(p, earlier) && AllHopCalls(p, calls)
    ensures var now := B.Run(B.Run(map[], earlier), calls); WithinPolicy(now, p) && L.AllSound(now)
  {
    RunsConcat(map[], earlier, calls);
    HopsKeepCaps(p, earlier + calls);
  }

  /** So the book is within every cap after a run, whatever runs under the same policy went before or beside it. */
  lemma {:induction false} RunKeepsCaps(
    job: Job, start: Authorized, replies: seq<Reply>, ids: seq<string>, others: seq<Meanwhile>,
    earlier: seq<B.Op>, p: Progress, r: Result<HttpResponse, EgressError>)
    requires WellFormed(job.state.policy) && Granted(job, start)
    requires |replies| == |ids| == |others| == start.policy.maxRedirects + 1
    requires LimitsBelowMax(job.state.policy.sessionLimits)
    requires AllHopCalls(job.state.policy, earlier) && OthersHop(job.state.policy, others)
    requires RunOk(job, start, replies, ids, others, B.Run(map[], earlier), p, r)
    ensures WithinPolicy(p.now, job.state.policy) && L.AllSound(p.now)
  {
    var calls := RunCalls(p.trace, p.refused, others);
    RunBounds(job, start, replies, ids, others, B.Run(map[], earlier), p, r);
    RunCallsHop(job, p.trace, p.refused, others);
    CallsKeepCaps(job.state.policy, earlier, calls);
  }
}
