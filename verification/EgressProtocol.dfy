/**
 The mutation protocol as a state machine: any number of callers prepare, await approval, prepare
 again, claim the durable effect, execute it over hops and persist its ending, while the operator
 replaces and revokes policy and any caller may crash between any two steps.

 `ops` is the operator's log, `events` the log of what callers did to the outside world. The policy
 and the handles at a moment are what the operator's log up to that moment makes of the start.
 */
module EgressProtocol {
  import opened Common
  import opened EgressErrors
  import opened EgressPolicy
  import R = EgressRuntime
  import opened EgressPrepare
  import opened EgressEffects

  datatype Outcome = Responded(response: HttpResponse) | Errored(error: EgressError)

  /** How a caller's run ended. */
  datatype Return = Refused | Replayed(record: Record) | Executed(effectId: Digest)

  datatype Phase =
    | Preparing(snapshotAt: nat)
    | AwaitingApproval
    | Approved
    | Repreparing(snapshotAt: nat)
    | Ready
    | Interrupting(found: Record)
    | Executing(effect: Record, redirects: nat)
    | InFlight(effect: Record, redirects: nat)
    | Persisting(effect: Record, outcome: Outcome)
    | Returned(result: Return)
    | Crashed

  /** A snapshot with the position in the operator's log at which its policy was read. */
  datatype Bound = Bound(prepared: Prepared, at: nat)

  datatype Caller = Caller(
    ctx: R.Context, request: HttpRequest, phase: Phase,
    before: Option<Bound>, after: Option<Bound>, claim: Option<Digest>)

  datatype Event =
    | Claimed(caller: nat, effectId: Digest)
    | HopSent(caller: nat, effectId: Digest, redirects: nat, to: Authorized)
    | StatusSeen(caller: nat, effectId: Digest, status: nat, bytes: nat)
    | FailedWith(caller: nat, effectId: Digest, error: EgressError)

  datatype World = World(
    start: R.Broker, ops: seq<R.Op>, effects: Effects, callers: map<nat, Caller>, events: seq<Event>)

  function StateAt(w: World, at: nat): R.RuntimeState
    requires at <= |w.ops|
  {
    R.Run(w.start, w.ops[..at]).state
  }

  function HandlesNow(w: World): R.Handles {
    R.Run(w.start, w.ops).handles
  }

  // ---------- Endings ----------

  const INTERRUPTED := Ending(Uncertain, None, None, Some("interrupted_before_terminal_persistence"), None)

  function Code(e: EgressError): string {
    match e
    case Disabled => "disabled"
    case InvalidConfig(_) => "invalid_config"
    case InvalidRequest(_) => "invalid_request"
    case Denied(_) => "denied"
    case Revoked(_) => "revoked"
    case Budget(_) => "budget_exceeded"
    case Timeout => "timeout"
    case Dns => "dns_failed"
    case Transport => "transport_failed"
    case NonUtf8 => "non_utf8_response"
    case InvalidSecretHandle => "invalid_secret_handle"
    case SecretUnavailable => "secret_unavailable"
    case Audit => "audit_failed"
    case Durability(_) => "durability_failed"
  }

  function ResultDigest(r: HttpResponse): Digest {
    OfResult(r.status, OfResponseBody(r.body), r.contentType, r.destinationId,
             r.responseBytes, r.redirects, r.secretRedactions)
  }

  /** The ending the executor asks the store to persist. */
  function EndingFor(outcome: Outcome): Ending {
    match outcome
    case Responded(r) =>
      if r.status < 400
      then Ending(Succeeded, Some(ResultDigest(r)), Some(r.responseBytes), None, None)
      else Ending(Failed, Some(ResultDigest(r)), Some(r.responseBytes),
                  Some("http_error_status"), Some(OfStatus(r.status)))
    case Errored(e) =>
      var status := if e.Transport? || e.Timeout? || e.Audit? || e.Durability? then Uncertain else Failed;
      Ending(status, None, None, Some(Code(e)), Some(OfError(Code(e))))
  }

  // ---------- Steps ----------

  predicate FollowsRedirects(request: HttpRequest) {
    Upper(request.verb) == "GET" || Upper(request.verb) == "HEAD"
  }

  datatype Step =
    | Start(c: nat, ctx: R.Context, request: HttpRequest)
    | Prepare(c: nat, now: nat, prepared: Prepared)
    | Approve(c: nat)
    | ReadAgain(c: nat)
    | Reprepare(c: nat, now: nat, prepared: Prepared)
    | GiveUp(c: nat)
    | Begin(c: nat)
    | Interrupt(c: nat)
    | Fail(c: nat, error: EgressError)
    | SendHop(c: nat, to: Authorized)
    | Redirected(c: nat)
    | Final(c: nat, response: HttpResponse)
    | Persist(c: nat)
    | Crash(c: nat)
    | Operate(op: R.Op)

  /** What a caller's step does: its own new state, the store, and what it sends or sees. */
  datatype Move = Move(me: Caller, effects: Effects, events: seq<Event>)

  function Stay(me: Caller, phase: Phase, effects: Effects): Option<Move> {
    Some(Move(me.(phase := phase), effects, []))
  }

  /** Claiming the effect: the creator executes, everyone else replays or first interrupts. */
  function BeginMove(me: Caller, c: nat, effects: Effects): Option<Move> {
    if !me.phase.Ready? || me.after.None? || me.ctx.effectScope.None? then None
    else
      var intent := IntentFor(me.ctx, me.after.value.prepared);
      var answer := BeginAnswer(effects, intent);
      var effects' := Begun(effects, intent);
      if answer.Err? then Stay(me, Returned(Refused), effects')
      else if answer.value.created then
        Some(Move(me.(phase := Executing(answer.value.record, 0), claim := Some(intent.effectId)),
                  effects', [Claimed(c, intent.effectId)]))
      else if answer.value.record.ending.status == Started then
        Stay(me, Interrupting(answer.value.record), effects')
      else Stay(me, Returned(Replayed(answer.value.record)), effects')
  }

  /** Steps before the claim; `now` is the length of the operator's log. */
  function PlanMove(me: Caller, step: Step, now: nat, effects: Effects): Option<Move> {
    match step
    case Prepare(_, _, p) =>
      if !me.phase.Preparing? then None
      else Some(Move(me.(phase := AwaitingApproval, before := Some(Bound(p, me.phase.snapshotAt))), effects, []))
    case Approve(_) =>
      if me.phase.AwaitingApproval? then Stay(me, Approved, effects) else None
    case ReadAgain(_) =>
      if me.phase.Approved? then Stay(me, Repreparing(now), effects) else None
    case Reprepare(_, _, p) =>
      if !me.phase.Repreparing? || me.before.None? then None
      else if SamePrepared(me.before.value.prepared, p)
      then Some(Move(me.(phase := Ready, after := Some(Bound(p, me.phase.snapshotAt))), effects, []))
      else Stay(me, Returned(Refused), effects)
    case GiveUp(_) =>
      if me.phase.Preparing? || me.phase.AwaitingApproval? || me.phase.Repreparing? || me.phase.Ready?
      then Stay(me, Returned(Refused), effects) else None
    case _ => None
  }

  /** The redirect cap of a run is that of its first destination. */
  function RedirectCap(me: Caller): nat {
    if me.after.Some? then me.after.value.prepared.destination.policy.maxRedirects else 0
  }

  /**
   The first hop goes to the prepared destination and URL. Redirects are scoped: whatever URL they lead to, the
   prepared policy must grant it to the same destination.
   */
  predicate MayGoTo(me: Caller, redirects: nat, to: Authorized) {
    && me.after.Some?
    && var p := me.after.value.prepared;
       if redirects == 0 then to == p.destination
       else
         && p.state.policy.enabled && Lowest(p.state.policy, to.policy, to.url, Upper(me.request.verb))
         && to.policy.id == p.destinationId
  }

  /** The executor has an outcome to persist, and the log says what it was. */
  function Concludes(me: Caller, c: nat, outcome: Outcome, effects: Effects): Option<Move>
    requires me.phase.Executing? || me.phase.InFlight?
  {
    var id := me.phase.effect.intent.effectId;
    var event := match outcome
                 case Responded(r) => StatusSeen(c, id, r.status, r.responseBytes)
                 case Errored(error) => FailedWith(c, id, error);
    Some(Move(me.(phase := Persisting(me.phase.effect, outcome)), effects, [event]))
  }

  /** Executing a claimed effect over hops. */
  function HopMove(me: Caller, step: Step, effects: Effects): Option<Move> {
    match step
    case Fail(c, error) =>
      if me.phase.Executing? || me.phase.InFlight? then Concludes(me, c, Errored(error), effects) else None
    case SendHop(c, to) =>
      if !me.phase.Executing? || !MayGoTo(me, me.phase.redirects, to) then None
      else Some(Move(me.(phase := InFlight(me.phase.effect, me.phase.redirects)), effects,
                     [HopSent(c, me.phase.effect.intent.effectId, me.phase.redirects, to)]))
    case Redirected(c) =>
      if !me.phase.InFlight? then None
      else if !FollowsRedirects(me.request) || me.phase.redirects >= RedirectCap(me)
      then Concludes(me, c, Errored(Denied("redirect")), effects)
      else Stay(me, Executing(me.phase.effect, me.phase.redirects + 1), effects)
    case Final(c, response) =>
      if !me.phase.InFlight? then None else Concludes(me, c, Responded(response), effects)
    case _ => None
  }

  /** Writing an ending: the executor's own, or the interruption of somebody else's. */
  function EndMove(me: Caller, step: Step, effects: Effects): Option<Move> {
    match step
    case Interrupt(_) =>
      if !me.phase.Interrupting? then None
      else
        var id := me.phase.found.intent.effectId;
        var answer := FinishAnswer(effects, id, INTERRUPTED);
        Stay(me, Returned(if answer.Ok? then Replayed(answer.value) else Refused),
             Finished(effects, id, INTERRUPTED))
    case Persist(_) =>
      if !me.phase.Persisting? then None
      else
        var id := me.phase.effect.intent.effectId;
        Stay(me, Returned(Executed(id)), Finished(effects, id, EndingFor(me.phase.outcome)))
    case _ => None
  }

  /** The move of a caller in state `me`, if the step is possible. */
  function MoveOf(me: Caller, step: Step, now: nat, effects: Effects): Option<Move>
    requires !step.Start? && !step.Operate?
  {
    match step
    case Prepare(_, _, _) => PlanMove(me, step, now, effects)
    case Approve(_) => PlanMove(me, step, now, effects)
    case ReadAgain(_) => PlanMove(me, step, now, effects)
    case Reprepare(_, _, _) => PlanMove(me, step, now, effects)
    case GiveUp(_) => PlanMove(me, step, now, effects)
    case Begin(c) => BeginMove(me, c, effects)
    case Interrupt(_) => EndMove(me, step, effects)
    case Persist(_) => EndMove(me, step, effects)
    case Crash(_) => Stay(me, Crashed, effects)
    case _ => HopMove(me, step, effects)
  }

  /** A prepare step yields what preparing under the policy read earlier and the handles of now yields. */
  ghost predicate Justified(w: World, me: Caller, step: Step) {
    step.Prepare? || step.Reprepare? ==>
      && (me.phase.Preparing? || me.phase.Repreparing?) && me.phase.snapshotAt <= |w.ops|
      && Prepares(StateAt(w, me.phase.snapshotAt), HandlesNow(w), step.now, me.ctx, me.request, step.prepared)
  }

  ghost predicate Next(w: World, step: Step, w': World) {
    match step
    case Start(c, ctx, request) =>
      && c !in w.callers && Upper(request.verb) != "GET"
      && w' == w.(callers := w.callers[c := Caller(ctx, request, Preparing(|w.ops|), None, None, None)])
    case Operate(op) =>
      && (op.Replace? ==> WellFormed(op.policy))
      && w' == w.(ops := w.ops + [op])
    case _ =>
      && step.c in w.callers
      && Justified(w, w.callers[step.c], step)
      && (var moved := MoveOf(w.callers[step.c], step, |w.ops|, w.effects);
          && moved.Some?
          && w' == World(w.start, w.ops, moved.value.effects,
                         w.callers[step.c := moved.value.me], w.events + moved.value.events))
  }

  predicate Initial(w: World) {
    && WellFormed(w.start.state.policy) && w.ops == [] && w.effects == map[]
    && w.callers == map[] && w.events == []
  }

  /** Consecutive worlds of one run, under some step each. */
  ghost predicate Behavior(ws: seq<World>, steps: seq<Step>) {
    && |ws| == |steps| + 1
    && Initial(ws[0])
    && forall i :: 0 <= i < |steps| ==> Next(ws[i], steps[i], ws[i + 1])
  }
}
