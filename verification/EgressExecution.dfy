/**
 Executing a claimed mutation, with every path on which it can return. Whatever happens between the claim
 and the return, the record is terminal when the call returns.
 */
module EgressExecution {
  import opened Common
  import opened EgressErrors
  import opened EgressPolicy
  import opened EgressPrepare
  import opened EgressEffects
  import opened EgressProtocol
  import opened EgressHonesty
  import R = EgressRuntime
  import H = EgressHops
  import B = EgressBudget
  import L = EgressLedger

  /** What the environment decides: resolving the secret, sizing the request, persisting audit events. */
  datatype Environment = Environment(
    secretError: Option<EgressError>, sizeError: Option<EgressError>,
    startAuditFails: bool, endAuditFails: bool)

  /** Persist an ending; the error of persisting wins over the error being persisted. */
  method FinishWith(store: EffectStore, id: Digest, outcome: Outcome) returns (r: Result<(), EgressError>)
    requires id in store.effects
    modifies store
    ensures store.effects == Finished(old(store.effects), id, EndingFor(outcome))
    ensures id in store.effects && Terminal(store.effects[id].ending.status)
    ensures r.Ok? <==> store.effects[id].ending == EndingFor(outcome)
    ensures r.Ok? ==> Honest(outcome, store.effects[id].ending)
    ensures old(store.effects[id].ending.status) == Started ==> r.Ok?
    ensures r.Err? ==> r.error.Durability?
  {
    EndingIsHonest(outcome);
    var finished := store.FinishMutation(id, EndingFor(outcome));
    return if finished.Ok? then Ok(()) else Err(finished.error);
  }

  /** What other callers do to the store meanwhile. */
  datatype StoreCall = Begins(intent: Intent) | Ends(id: Digest, ending: Ending)

  function StoreRun(effects: Effects, calls: seq<StoreCall>): Effects
    decreases |calls|
  {
    if calls == [] then effects
    else
      var before := StoreRun(effects, calls[..|calls| - 1]);
      match calls[|calls| - 1]
      case Begins(intent) => Begun(before, intent)
      case Ends(id, ending) => Finished(before, id, ending)
  }

  /** Other callers end this effect, if at all, with the interruption. */
  predicate OnlyInterrupts(calls: seq<StoreCall>, id: Digest) {
    forall i :: 0 <= i < |calls| && calls[i].Ends? && calls[i].id == id ==> calls[i].ending == INTERRUPTED
  }

  /** So they leave its record as it was, or interrupted if it was open. */
  lemma {:induction false} MetAs(effects: Effects, calls: seq<StoreCall>, id: Digest)
    requires id in effects && OnlyInterrupts(calls, id)
    ensures var met := StoreRun(effects, calls);
            && id in met
            && (met[id] == effects[id]
                || (effects[id].ending.status == Started && met[id] == Record(effects[id].intent, INTERRUPTED)))
    decreases |calls|
  {
    if calls != [] {
      MetAs(effects, calls[..|calls| - 1], id);
    }
  }

  /** The executor never asks for the interruption's ending. */
  lemma {:induction false} NeverInterrupted(outcome: Outcome)
    ensures EndingFor(outcome) != INTERRUPTED && Terminal(EndingFor(outcome).status)
  {
  }

  /** The job is the request, in the prepared state and scoped to the prepared destination. */
  predicate Carries(job: H.Job, request: HttpRequest, prepared: Prepared) {
    && job.state == prepared.state && job.scope == Some(prepared.destinationId)
    && job.verb == request.verb && job.timeoutMs == request.timeoutMs
  }

  /** What was prepared is granted, to the job that carries it out. */
  lemma {:induction false} PreparedIsGranted(
    job: H.Job, request: HttpRequest, prepared: Prepared, handles: R.Handles, now: nat)
    requires WellFormed(prepared.state.policy) && Carries(job, request, prepared)
    requires Prepares(prepared.state, handles, now, job.ctx, request, prepared)
    ensures H.Granted(job, prepared.destination) && job.scope == Some(prepared.destination.policy.id)
  {
    UpperTwice(request.verb);
  }

  /** Persist an ending after whatever others did to the store. */
  method FinishAfter(store: EffectStore, id: Digest, outcome: Outcome, meanwhile: seq<StoreCall>)
    returns (r: Result<(), EgressError>)
    requires id in store.effects && OnlyInterrupts(meanwhile, id)
    modifies store
    ensures var met := StoreRun(old(store.effects), meanwhile);
            && id in met && id in store.effects && Terminal(store.effects[id].ending.status)
            && store.effects == Finished(met, id, EndingFor(outcome))
            && (r.Ok? <==> store.effects[id].ending == EndingFor(outcome))
            && (r.Ok? ==> Honest(outcome, store.effects[id].ending))
            && (met[id].ending.status == Started ==> r.Ok?) && (met[id].ending == INTERRUPTED ==> r.Err?)
    ensures r.Err? ==> r.error.Durability?
  {
    MetAs(store.effects, meanwhile, id);
    NeverInterrupted(outcome);
    store.effects := StoreRun(store.effects, meanwhile);
    r := FinishWith(store, id, outcome);
  }

  /** What fails before any hop is sent. */
  function EarlyError(env: Environment): Option<EgressError> {
    if env.secretError.Some? then env.secretError
    else if env.sizeError.Some? then env.sizeError
    else if env.startAuditFails then Some(Audit)
    else None
  }

  function ResultOf(outcome: Outcome): Result<HttpResponse, EgressError> {
    match outcome
    case Responded(response) => Ok(response)
    case Errored(error) => Err(error)
  }

  /** What a run of hops did, and the outcome it came to. */
  datatype Sent = Sent(trace: seq<H.Hop>, refused: Option<B.Request>, outcome: Outcome)

  /**
   An early error sends nothing. Else the hops are a run from the prepared destination, at its URL, and none of
   them leaves the prepared destination's entry.
   */
  ghost predicate SentOk(
    env: Environment, prepared: Prepared, job: H.Job, replies: seq<H.Reply>, ids: seq<string>,
    others: seq<H.Meanwhile>, was: B.Sessions, sessions: B.Sessions, sent: Sent)
    requires WellFormed(job.state.policy) && |replies| == |ids| == |others|
  {
    && (if EarlyError(env).Some?
        then sent == Sent([], None, Errored(EarlyError(env).value)) && sessions == was
        else H.RunOk(job, prepared.destination, replies, ids, others, was,
                     H.Progress(sent.trace, sent.refused, sessions), ResultOf(sent.outcome)))
    && (sent.trace != [] ==> sent.trace[0].destination == prepared.destination)
    && (forall k :: 0 <= k < |sent.trace| ==> sent.trace[k].destination.policy == prepared.destination.policy)
  }

  method SendPrepared(
    book: B.BudgetBook, env: Environment, request: HttpRequest, prepared: Prepared, job: H.Job,
    replies: seq<H.Reply>, ids: seq<string>, others: seq<H.Meanwhile>, ghost handles: R.Handles, ghost now: nat)
    returns (sent: Sent)
    requires WellFormed(prepared.state.policy) && Carries(job, request, prepared)
    requires Prepares(prepared.state, handles, now, job.ctx, request, prepared)
    requires |replies| == |ids| == |others| == prepared.destination.policy.maxRedirects + 1 && H.DistinctIds(ids)
    requires forall k :: 0 <= k < |others| ==> H.Foreign(others[k], job.ctx.sessionId, ids)
    requires L.AllFiled(book.sessions)
    requires forall k :: 0 <= k < |ids| ==> !L.Has(book.sessions, job.ctx.sessionId, ids[k])
    modifies book
    ensures SentOk(env, prepared, job, replies, ids, others, old(book.sessions), book.sessions, sent)
  {
    if env.secretError.Some? {
      return Sent([], None, Errored(env.secretError.value));
    }
    if env.sizeError.Some? {
      return Sent([], None, Errored(env.sizeError.value));
    }
    if env.startAuditFails {
      return Sent([], None, Errored(Audit));
    }
    ghost var was := book.sessions;
    PreparedIsGranted(job, request, prepared, handles, now);
    var r, trace, refused := H.ExecuteHops(book, job, prepared.destination, replies, ids, others);
    ghost var p := H.Progress(trace, refused, book.sessions);
    H.RunBounds(job, prepared.destination, replies, ids, others, was, p, r);
    H.ScopedRunStays(job, prepared.destination, replies, ids, others, was, p, r);
    sent := Sent(trace, refused, if r.Ok? then Responded(r.value) else Errored(r.error));
    assert ResultOf(sent.outcome) == r;
  }

  /**
   Execute what was prepared and claimed. `meanwhile` is what others do to the store before the ending is
   persisted. On every path the record takes the ending of the outcome, unless it was interrupted; then it stays
   interrupted and the answer is an error.
   */
  method ExecutePreparedMutation(
    store: EffectStore, book: B.BudgetBook, effect: Record, request: HttpRequest, prepared: Prepared, job: H.Job,
    env: Environment, replies: seq<H.Reply>, ids: seq<string>, others: seq<H.Meanwhile>, meanwhile: seq<StoreCall>,
    ghost handles: R.Handles, ghost now: nat)
    returns (r: Result<HttpResponse, EgressError>, sent: Sent)
    requires effect.intent.effectId in store.effects && OnlyInterrupts(meanwhile, effect.intent.effectId)
    requires WellFormed(prepared.state.policy) && Carries(job, request, prepared)
    requires Prepares(prepared.state, handles, now, job.ctx, request, prepared)
    requires |replies| == |ids| == |others| == prepared.destination.policy.maxRedirects + 1 && H.DistinctIds(ids)
    requires forall k :: 0 <= k < |others| ==> H.Foreign(others[k], job.ctx.sessionId, ids)
    requires L.AllFiled(book.sessions)
    requires forall k :: 0 <= k < |ids| ==> !L.Has(book.sessions, job.ctx.sessionId, ids[k])
    modifies store, book
    ensures SentOk(env, prepared, job, replies, ids, others, old(book.sessions), book.sessions, sent)
    ensures var id, met := effect.intent.effectId, StoreRun(old(store.effects), meanwhile);
            && id in met && id in store.effects && Terminal(store.effects[id].ending.status)
            && store.effects == Finished(met, id, EndingFor(sent.outcome))
            && (met[id].ending == INTERRUPTED ==> r.Err? && r.error.Durability?)
            && (met[id].ending.status == Started ==>
                  && store.effects[id].ending == EndingFor(sent.outcome)
                  && Honest(sent.outcome, store.effects[id].ending)
                  && r == if EarlyError(env).None? && env.endAuditFails then Err(Audit) else ResultOf(sent.outcome))
    ensures r.Ok? ==> var ending := store.effects[effect.intent.effectId].ending;
                      ending == EndingFor(Responded(r.value)) && Honest(Responded(r.value), ending)
  {
    var id := effect.intent.effectId;
    sent := SendPrepared(book, env, request, prepared, job, replies, ids, others, handles, now);
    var ended := FinishAfter(store, id, sent.outcome, meanwhile);
    r := if ended.Err? then Err(ended.error)
         else if EarlyError(env).None? && env.endAuditFails then Err(Audit)
         else ResultOf(sent.outcome);
  }
}
