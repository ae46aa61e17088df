/** The mutation protocol's guarantees, stated of every behavior. */
module EgressTheorems {
  import opened Common
  import opened EgressPolicy
  import R = EgressRuntime
  import opened EgressPrepare
  import opened EgressEffects
  import opened EgressProtocol
  import opened EgressSafety

  // ---------- Policies ----------

  predicate OnlyWellFormed(w: World) {
    && WellFormed(w.start.state.policy)
    && (forall i :: 0 <= i < |w.ops| && w.ops[i].Replace? ==> WellFormed(w.ops[i].policy))
  }

  lemma {:induction false} PolicyWellFormed(start: R.Broker, ops: seq<R.Op>)
    requires WellFormed(start.state.policy)
    requires forall i :: 0 <= i < |ops| && ops[i].Replace? ==> WellFormed(ops[i].policy)
    ensures WellFormed(R.Run(start, ops).state.policy)
    decreases |ops|
  {
    if ops != [] {
      PolicyWellFormed(start, ops[..|ops| - 1]);
    }
  }

  lemma {:induction false} RedirectCapBounded(w: World, me: Caller)
    requires OnlyWellFormed(w) && SnapshotsOk(w, me)
    ensures RedirectCap(me) <= MAX_REDIRECTS
  {
    if me.after.Some? {
      var b := me.after.value;
      PolicyWellFormed(w.start, w.ops[..b.at]);
    }
  }

  // ---------- Genuine effects ----------

  ghost predicate GenuineEffects(effects: Effects) {
    forall id :: id in effects ==> effects[id].intent.effectId == id && Genuine(effects[id].intent)
  }

  ghost predicate AllGenuine(w: World) {
    GenuineEffects(w.effects)
  }

  /** Intents of one store are those of another, or one more. */
  predicate IntentsFrom(after: Effects, before: Effects, more: Option<Intent>) {
    forall id :: id in after ==>
      || (id in before && after[id].intent == before[id].intent)
      || (more.Some? && after[id].intent == more.value && more.value.effectId == id)
  }

  lemma {:induction false} IntentsStayGenuine(after: Effects, before: Effects, more: Option<Intent>)
    requires GenuineEffects(before) && IntentsFrom(after, before, more)
    requires more.Some? ==> Genuine(more.value)
    ensures GenuineEffects(after)
  {
  }

  lemma {:induction false} BoundIntentGenuine(w: World, me: Caller)
    requires SnapshotsOk(w, me) && me.after.Some? && me.ctx.effectScope.Some?
    ensures Genuine(IntentFor(me.ctx, me.after.value.prepared))
  {
    var b := me.after.value;
    var handles, now :| Prepares(StateAt(w, b.at), handles, now, me.ctx, me.request, b.prepared);
    assert Prepares(StateAt(w, b.at), handles, now, me.ctx, me.request, b.prepared)
           && me.ctx.effectScope.Some?
           && IntentFor(me.ctx, b.prepared) == IntentFor(me.ctx, b.prepared);
  }

  /** The intent a step adds to the store: that of a claiming caller. */
  function NewIntent(me: Caller, step: Step): Option<Intent> {
    if step.Begin? && me.after.Some? && me.ctx.effectScope.Some? then Some(IntentFor(me.ctx, me.after.value.prepared))
    else None
  }

  lemma {:induction false} MoveKeepsIntents(me: Caller, step: Step, now: nat, effects: Effects)
    requires !step.Start? && !step.Operate? && MoveOf(me, step, now, effects).Some?
    ensures IntentsFrom(MoveOf(me, step, now, effects).value.effects, effects, NewIntent(me, step))
  {
  }

  lemma {:induction false} MoveKeepsGenuine(w: World, step: Step, m: Move, w': World)
    requires AllSnapshotsOk(w) && AllGenuine(w) && MovesBy(w, step, m, w')
    ensures AllGenuine(w')
  {
    var me := w.callers[step.c];
    MoveKeepsIntents(me, step, |w.ops|, w.effects);
    if NewIntent(me, step).Some? {
      BoundIntentGenuine(w, me);
    }
    IntentsStayGenuine(m.effects, w.effects, NewIntent(me, step));
  }

  lemma {:induction false} StepKeepsGenuine(w: World, step: Step, w': World)
    requires AllSnapshotsOk(w) && AllGenuine(w) && Shaped(w, step, w')
    ensures AllGenuine(w')
  {
    if !Elsewhere(w, w') {
      var m :| MovesBy(w, step, m, w');
      MoveKeepsGenuine(w, step, m, w');
    }
  }

  // ---------- Every behavior ----------

  ghost predicate Inv(w: World) {
    && AllSnapshotsOk(w) && ClaimsOk(w) && HopsOk(w) && RecordsOk(w) && AllGenuine(w) && OnlyWellFormed(w)
  }

  lemma {:induction false} StepKeepsPolicies(w: World, step: Step, w': World)
    requires OnlyWellFormed(w) && Next(w, step, w')
    ensures OnlyWellFormed(w') && w'.start == w.start && w.ops <= w'.ops
  {
  }

  lemma {:induction false} StepKeepsInv(w: World, step: Step, w': World)
    requires Inv(w) && Next(w, step, w')
    ensures Inv(w')
  {
    StepKeepsSnapshots(w, step, w');
    StepShape(w, step, w');
    StepKeepsClaims(w, step, w');
    StepKeepsHops(w, step, w');
    StepKeepsRecords(w, step, w');
    StepKeepsGenuine(w, step, w');
    StepKeepsPolicies(w, step, w');
  }

  lemma {:induction false} InvHolds(ws: seq<World>, steps: seq<Step>, i: nat)
    requires Behavior(ws, steps) && i < |ws|
    ensures Inv(ws[i])
  {
    if i > 0 {
      InvHolds(ws, steps, i - 1);
      StepKeepsInv(ws[i - 1], steps[i - 1], ws[i]);
    }
  }

  lemma {:induction false} CapsBounded(w: World)
    requires AllSnapshotsOk(w) && OnlyWellFormed(w)
    ensures forall c :: c in w.callers ==> RedirectCap(w.callers[c]) <= MAX_REDIRECTS
  {
    forall c | c in w.callers ensures RedirectCap(w.callers[c]) <= MAX_REDIRECTS {
      RedirectCapBounded(w, w.callers[c]);
    }
  }

  lemma {:induction false} EventsBelong(w: World)
    requires ClaimsOk(w) && HopsOk(w)
    requires forall c :: c in w.callers ==> RedirectCap(w.callers[c]) <= MAX_REDIRECTS
    ensures forall e :: e in w.events ==> Claimed(e.caller, e.effectId) in w.events
    ensures forall e :: e in w.events ==>
              && e.caller in w.callers
              && Hops(w.events, e.effectId)
                 <= if Upper(w.callers[e.caller].request.verb) in ["GET", "HEAD"] then MAX_REDIRECTS + 1 else 1
  {
    forall e | e in w.events
      ensures Claimed(e.caller, e.effectId) in w.events && e.caller in w.callers
      ensures Hops(w.events, e.effectId)
              <= if Upper(w.callers[e.caller].request.verb) in ["GET", "HEAD"] then MAX_REDIRECTS + 1 else 1
    {
      assert ClaimBook(w.callers)[e.caller] == e.effectId;
      assert HopsFit(w.callers[e.caller], Hops(w.events, e.effectId));
    }
  }

  /**
   At most once: in every world of every behavior each effect id has been claimed at most once, every
   hop and every response of an effect belongs to the one caller that claimed it, and the effect has
   cost at most one hop, or at most six for a method that follows redirects.
   */
  lemma {:induction false} AtMostOnce(ws: seq<World>, steps: seq<Step>, i: nat)
    requires Behavior(ws, steps) && i < |ws|
    ensures UniqueClaims(ws[i].events)
    ensures forall e :: e in ws[i].events ==> Claimed(e.caller, e.effectId) in ws[i].events
    ensures forall e :: e in ws[i].events ==>
              && e.caller in ws[i].callers
              && Hops(ws[i].events, e.effectId)
                 <= if Upper(ws[i].callers[e.caller].request.verb) in ["GET", "HEAD"] then MAX_REDIRECTS + 1 else 1
  {
    InvHolds(ws, steps, i);
    CapsBounded(ws[i]);
    EventsBelong(ws[i]);
  }

  lemma {:induction false} StepAdvances(effects: Effects, w: World, step: Step, w': World)
    requires Advances(effects, w.effects) && ClaimsOk(w) && RecordsOk(w) && Next(w, step, w')
    ensures Advances(effects, w'.effects)
  {
    StepShape(w, step, w');
    StepKeepsRecords(w, step, w');
  }

  lemma {:induction false} OneStepAdvances(ws: seq<World>, steps: seq<Step>, k: nat, effects: Effects)
    requires Behavior(ws, steps) && k < |steps| && Advances(effects, ws[k].effects)
    ensures Advances(effects, ws[k + 1].effects)
  {
    InvHolds(ws, steps, k);
    StepAdvances(effects, ws[k], steps[k], ws[k + 1]);
  }

  /** Final: a record, once terminal, is the same in every later world; before that only its ending moves. */
  lemma {:induction false} RecordsFinal(ws: seq<World>, steps: seq<Step>, i: nat, j: nat)
    requires Behavior(ws, steps) && i <= j < |ws|
    ensures Advances(ws[i].effects, ws[j].effects)
    decreases j
  {
    if i < j {
      RecordsFinal(ws, steps, i, j - 1);
      OneStepAdvances(ws, steps, j - 1, ws[i].effects);
    }
  }

  /** Whenever an execution has returned, on whatever path, its record is terminal. */
  lemma {:induction false} ReturnedIsTerminal(ws: seq<World>, steps: seq<Step>, i: nat, c: nat)
    requires Behavior(ws, steps) && i < |ws| && c in ws[i].callers
    requires ws[i].callers[c].phase.Returned? && ws[i].callers[c].phase.result.Executed?
    ensures var id := ws[i].callers[c].phase.result.effectId;
            && ws[i].callers[c].claim == Some(id)
            && id in ws[i].effects && Terminal(ws[i].effects[id].ending.status)
  {
    InvHolds(ws, steps, i);
    assert RecordOk(ws[i].effects, ws[i].callers[c]);
  }

  lemma {:induction false} OthersEndOnlyWithInterruption(me: Caller, step: Step, now: nat, effects: Effects, id: Digest)
    requires HoldsItsClaim(me) && !step.Start? && !step.Operate? && me.claim != Some(id)
    requires MoveOf(me, step, now, effects).Some? && id in effects
    ensures var m := MoveOf(me, step, now, effects).value;
            && id in m.effects
            && (m.effects[id] != effects[id] ==>
                  && effects[id].ending.status == Started
                  && m.effects[id] == Record(effects[id].intent, INTERRUPTED))
  {
  }

  /** A caller without the claim changes a record only from Started, and only to the interruption. */
  lemma {:induction false} OthersOnlyInterrupt(ws: seq<World>, steps: seq<Step>, i: nat, id: Digest)
    requires Behavior(ws, steps) && i < |steps| && id in ws[i].effects
    requires id in ws[i + 1].effects && ws[i + 1].effects[id] != ws[i].effects[id]
    requires !steps[i].Start? && !steps[i].Operate?
    requires steps[i].c in ws[i].callers ==> ws[i].callers[steps[i].c].claim != Some(id)
    ensures ws[i].effects[id].ending.status == Started
    ensures ws[i + 1].effects[id] == Record(ws[i].effects[id].intent, INTERRUPTED)
  {
    InvHolds(ws, steps, i);
    var w, step, w' := ws[i], steps[i], ws[i + 1];
    assert Next(w, step, w');
    OthersEndOnlyWithInterruption(w.callers[step.c], step, |w.ops|, w.effects, id);
  }

  /** What claiming comes to, given the records already there. */
  predicate ClaimsOrReplays(effects: Effects, me: Caller, m: Move)
    requires me.after.Some? && me.ctx.effectScope.Some?
  {
    var id := IntentFor(me.ctx, me.after.value.prepared).effectId;
    if id in effects
    then
      && m.effects == effects && m.events == [] && m.me.claim == me.claim
      && m.me.phase == if Terminal(effects[id].ending.status)
                       then Returned(Replayed(effects[id]))
                       else Interrupting(effects[id])
    else
      && id in m.effects && m.effects == effects[id := m.effects[id]]
      && m.me.phase == Executing(m.effects[id], 0) && m.me.claim == Some(id)
  }

  lemma {:induction false} BeginStepShape(w: World, step: Step, w': World) returns (m: Move)
    requires Next(w, step, w') && step.Begin?
    ensures MovesBy(w, step, m, w') && BeginMove(w.callers[step.c], step.c, w.effects) == Some(m)
    ensures w.callers[step.c].after.Some? && w.callers[step.c].ctx.effectScope.Some?
  {
    m := MoveOf(w.callers[step.c], step, |w.ops|, w.effects).value;
  }

  predicate IntentKnownAs(effects: Effects, intent: Intent) {
    intent.effectId in effects ==> effects[intent.effectId].intent == intent
  }

  lemma {:induction false} KnownIntentMatches(w: World, c: nat)
    requires AllSnapshotsOk(w) && AllGenuine(w) && c in w.callers
    requires w.callers[c].after.Some? && w.callers[c].ctx.effectScope.Some?
    ensures IntentKnownAs(w.effects, IntentFor(w.callers[c].ctx, w.callers[c].after.value.prepared))
  {
    var intent := IntentFor(w.callers[c].ctx, w.callers[c].after.value.prepared);
    BoundIntentGenuine(w, w.callers[c]);
    if intent.effectId in w.effects {
      EffectIdFixesIntent(intent, w.effects[intent.effectId].intent);
    }
  }

  lemma {:induction false} BeginClaimsOrReplays(me: Caller, c: nat, effects: Effects, m: Move)
    requires me.after.Some? && me.ctx.effectScope.Some?
    requires IntentKnownAs(effects, IntentFor(me.ctx, me.after.value.prepared))
    requires BeginMove(me, c, effects) == Some(m)
    ensures ClaimsOrReplays(effects, me, m)
  {
  }

  /**
   Claiming an effect that already has a record never executes and never collides: it replays the record
   or interrupts it. `m` is the claiming caller's move.
   */
  lemma {:induction false} LaterClaimsReplay(ws: seq<World>, steps: seq<Step>, i: nat) returns (m: Move)
    requires Behavior(ws, steps) && i < |steps| && steps[i].Begin?
    ensures MovesBy(ws[i], steps[i], m, ws[i + 1])
    ensures var me := ws[i].callers[steps[i].c];
            me.after.Some? && me.ctx.effectScope.Some? && ClaimsOrReplays(ws[i].effects, me, m)
  {
    InvHolds(ws, steps, i);
    m := BeginStepShape(ws[i], steps[i], ws[i + 1]);
    KnownIntentMatches(ws[i], steps[i].c);
    BeginClaimsOrReplays(ws[i].callers[steps[i].c], steps[i].c, ws[i].effects, m);
  }

  // ---------- Approval ----------

  lemma {:induction false} RunConcat(b: R.Broker, first: seq<R.Op>, second: seq<R.Op>)
    ensures R.Run(b, first + second) == R.Run(R.Run(b, first), second)
    decreases |second|
  {
    if second == [] {
      assert first + second == first;
    } else {
      RunConcat(b, first, second[..|second| - 1]);
      assert (first + second)[..|first + second| - 1] == first + second[..|second| - 1];
    }
  }

  lemma {:induction false} NoReplacementsIff(ops: seq<R.Op>)
    ensures R.Replacements(ops) == 0 <==> forall i :: 0 <= i < |ops| ==> !ops[i].Replace?
    decreases |ops|
  {
    if ops != [] {
      NoReplacementsIff(ops[..|ops| - 1]);
    }
  }

  predicate NoneReplaces(ops: seq<R.Op>, a: nat, b: nat)
    requires a <= b <= |ops|
  {
    forall k :: a <= k < b ==> !ops[k].Replace?
  }

  lemma {:induction false} NoneBetweenIff(ops: seq<R.Op>, a: nat, b: nat)
    requires a <= b <= |ops|
    ensures NoneReplaces(ops, a, b) <==> R.Replacements(ops[a..b]) == 0
  {
    NoReplacementsIff(ops[a..b]);
    assert forall k :: a <= k < b ==> ops[k] == ops[a..b][k - a];
    assert forall i :: 0 <= i < b - a ==> ops[a..b][i] == ops[a + i];
  }

  /**
   Two moments of a run have the same generation exactly when no policy was replaced between them or the
   generation had saturated. In the first case they have the same policy.
   */
  lemma {:induction false} GenerationMissesReplacementIff(w: World, a: nat, b: nat)
    requires a <= b <= |w.ops|
    ensures StateAt(w, a).generation == StateAt(w, b).generation
            <==> NoneReplaces(w.ops, a, b) || StateAt(w, a).generation == U64_MAX
    ensures NoneReplaces(w.ops, a, b) ==> StateAt(w, a).policy == StateAt(w, b).policy
  {
    var between := w.ops[a..b];
    assert w.ops[..b] == w.ops[..a] + between;
    RunConcat(w.start, w.ops[..a], between);
    R.GenerationCountsReplacements(R.Run(w.start, w.ops[..a]), between);
    NoneBetweenIff(w.ops, a, b);
  }

  function Replacing(p: Policy, times: nat): seq<R.Op> {
    seq(times, _ => R.Replace(p, 0))
  }

  lemma {:induction false} ReplacingCounts(p: Policy, times: nat)
    ensures R.Replacements(Replacing(p, times)) == times
  {
    if times > 0 {
      ReplacingCounts(p, times - 1);
      assert Replacing(p, times)[..times - 1] == Replacing(p, times - 1);
    }
  }

  /** A broker as it starts, replaced by its own policy `times` times: only its generation has moved. */
  lemma {:induction false} ReplacingItself(p: Policy, times: nat)
    ensures var st := R.Run(R.Broker(R.RuntimeState(p, {}, {}, 1), map[]), Replacing(p, times)).state;
            st.policy == p && st.generation == Min(1 + times, U64_MAX)
  {
    var start := R.Broker(R.RuntimeState(p, {}, {}, 1), map[]);
    ReplacingCounts(p, times);
    R.GenerationCountsReplacements(start, Replacing(p, times));
    if times > 0 {
      assert Replacing(p, times)[times - 1] == R.Replace(p, 0);
    }
  }

  /**
   The generation does miss one. A broker that starts with `p`, is replaced by `p` as often as the generation can
   count, and then by `q`, has another policy under an unchanged generation.
   */
  lemma {:induction false} GenerationCanMiss(p: Policy, q: Policy)
    ensures var start := R.Broker(R.RuntimeState(p, {}, {}, 1), map[]);
            var w := World(start, Replacing(p, U64_MAX) + [R.Replace(q, 0)], map[], map[], []);
            && StateAt(w, U64_MAX).generation == StateAt(w, U64_MAX + 1).generation
            && StateAt(w, U64_MAX).policy == p && StateAt(w, U64_MAX + 1).policy == q
  {
    var start := R.Broker(R.RuntimeState(p, {}, {}, 1), map[]);
    var first, last := Replacing(p, U64_MAX), R.Replace(q, 0);
    ReplacingItself(p, U64_MAX);
    assert (first + [last])[..U64_MAX] == first && (first + [last])[..U64_MAX + 1] == first + [last];
    assert R.Run(start, first + [last]) == R.Apply(R.Run(start, first), last);
  }

  /**
   Approval binds: a caller that holds a claim took two snapshots that compare equal. If their
   generation had not saturated, no policy replacement came between them and both hold the same policy,
   although the comparison looks at neither; and at the second snapshot neither the destination nor the
   secret was revoked.
   */
  lemma {:induction false} ApprovalBinds(ws: seq<World>, steps: seq<Step>, i: nat, c: nat)
    requires Behavior(ws, steps) && i < |ws| && c in ws[i].callers && ws[i].callers[c].claim.Some?
    ensures var me := ws[i].callers[c];
            && me.before.Some? && me.after.Some?
            && (var before, after := me.before.value, me.after.value;
                && before.at <= after.at <= |ws[i].ops|
                && before.prepared.destination.policy == after.prepared.destination.policy
                && (before.prepared.generation < U64_MAX ==>
                      && (forall k :: before.at <= k < after.at ==> !ws[i].ops[k].Replace?)
                      && before.prepared.state.policy == after.prepared.state.policy)
                && after.prepared.state == StateAt(ws[i], after.at)
                && R.Target(after.prepared.destinationId, after.prepared.destinationVersion)
                   !in StateAt(ws[i], after.at).revokedDestinations
                && (after.prepared.secret.Some? ==>
                      R.Target(after.prepared.secret.value.secretId, after.prepared.secret.value.secretVersion)
                      !in StateAt(ws[i], after.at).revokedSecrets))
  {
    InvHolds(ws, steps, i);
    var w := ws[i];
    var me := w.callers[c];
    assert SnapshotsOk(w, me);
    var before, after := me.before.value, me.after.value;
    var h, n :| Prepares(StateAt(w, before.at), h, n, me.ctx, me.request, before.prepared);
    var h', n' :| Prepares(StateAt(w, after.at), h', n', me.ctx, me.request, after.prepared);
    EqualSnapshotsSameTarget(StateAt(w, before.at), h, n, StateAt(w, after.at), h', n',
                             me.ctx, me.request, before.prepared, after.prepared);
    if before.prepared.generation < U64_MAX {
      GenerationMissesReplacementIff(w, before.at, after.at);
    }
  }

  // ---------- Where hops go ----------

  /** Every hop sent was one its caller might send, by the snapshot the caller still holds. */
  ghost predicate HopsApproved(w: World) {
    forall e :: e in w.events && e.HopSent? ==>
      e.caller in w.callers && MayGoTo(w.callers[e.caller], e.redirects, e.to)
  }

  /** A claimant keeps its snapshots, and sends only hops it may send. */
  lemma {:induction false} ClaimantKeepsSnapshot(me: Caller, step: Step, now: nat, effects: Effects)
    requires HoldsItsClaim(me) && !step.Start? && !step.Operate? && MoveOf(me, step, now, effects).Some?
    ensures var m := MoveOf(me, step, now, effects).value;
            && (me.claim.Some? ==> m.me.after == me.after && m.me.request == me.request)
            && (forall e :: e in m.events && e.HopSent? ==>
                  me.claim.Some? && e.caller == step.c && MayGoTo(m.me, e.redirects, e.to))
  {
  }

  lemma {:induction false} MoveKeepsApproved(w: World, step: Step, m: Move, w': World)
    requires ClaimsOk(w) && HopsApproved(w) && MovesBy(w, step, m, w')
    ensures HopsApproved(w')
  {
    var me := w.callers[step.c];
    ClaimantKeepsSnapshot(me, step, |w.ops|, w.effects);
    forall e | e in w'.events && e.HopSent?
      ensures e.caller in w'.callers && MayGoTo(w'.callers[e.caller], e.redirects, e.to)
    {
      if e in w.events {
        assert ClaimBook(w.callers)[e.caller] == e.effectId;
      } else {
        assert e in m.events;
      }
    }
  }

  lemma {:induction false} StepKeepsApproved(w: World, step: Step, w': World)
    requires ClaimsOk(w) && HopsApproved(w) && Next(w, step, w')
    ensures HopsApproved(w')
  {
    StepShape(w, step, w');
    if !Elsewhere(w, w') {
      var m :| MovesBy(w, step, m, w');
      MoveKeepsApproved(w, step, m, w');
    }
  }

  lemma {:induction false} HopsStayApproved(ws: seq<World>, steps: seq<Step>, i: nat)
    requires Behavior(ws, steps) && i < |ws|
    ensures HopsApproved(ws[i])
  {
    if i > 0 {
      HopsStayApproved(ws, steps, i - 1);
      InvHolds(ws, steps, i - 1);
      StepKeepsApproved(ws[i - 1], steps[i - 1], ws[i]);
    }
  }

  /** Under the policy it was prepared in, whatever a caller may go to is the prepared destination's entry. */
  lemma {:induction false} GoesToPrepared(w: World, me: Caller, redirects: nat, to: Authorized)
    requires OnlyWellFormed(w) && SnapshotsOk(w, me) && MayGoTo(me, redirects, to)
    ensures to.policy == me.after.value.prepared.destination.policy
  {
    var b := me.after.value;
    PolicyWellFormed(w.start, w.ops[..b.at]);
    var handles, now :| Prepares(StateAt(w, b.at), handles, now, me.ctx, me.request, b.prepared);
  }

  /** The hop goes where both snapshots of its caller say, for a caller that may go there. */
  ghost predicate HopApproved(me: Caller, redirects: nat, to: Authorized) {
    && me.before.Some? && me.after.Some?
    && var before, after := me.before.value.prepared, me.after.value.prepared;
       && to.policy == before.destination.policy == after.destination.policy
       && (redirects == 0 ==> to == after.destination && to.url.text == before.canonicalUrl == after.canonicalUrl)
       && me.ctx.sessionId !in ["", "default"] && "egress.destination:" + to.policy.id in me.ctx.grants
       && HeadersAllowed(to.policy, me.request.headers)
  }

  lemma {:induction false} MayGoToApproved(w: World, me: Caller, redirects: nat, to: Authorized)
    requires OnlyWellFormed(w) && SnapshotsOk(w, me) && MayGoTo(me, redirects, to)
    requires me.before.Some?
             && me.before.value.prepared.destination.policy == me.after.value.prepared.destination.policy
    ensures HopApproved(me, redirects, to)
  {
    GoesToPrepared(w, me, redirects, to);
    var b := me.after.value;
    var handles, now :| Prepares(StateAt(w, b.at), handles, now, me.ctx, me.request, b.prepared);
    PreparedAllows(StateAt(w, b.at), handles, now, me.ctx, me.request, b.prepared);
  }

  /**
   Every hop of every behavior goes to the destination entry that its caller's approved snapshot and its later
   one both hold, and the first hop to the URL that both name; its caller is an identified session with the grant
   for that destination, and its headers are allowed there.
   */
  lemma {:induction false} HopsGoWhereApproved(ws: seq<World>, steps: seq<Step>, i: nat, e: Event)
    requires Behavior(ws, steps) && i < |ws| && e in ws[i].events && e.HopSent?
    ensures e.caller in ws[i].callers && HopApproved(ws[i].callers[e.caller], e.redirects, e.to)
  {
    InvHolds(ws, steps, i);
    HopsStayApproved(ws, steps, i);
    assert ClaimBook(ws[i].callers)[e.caller] == e.effectId;
    ApprovalBinds(ws, steps, i, e.caller);
    MayGoToApproved(ws[i], ws[i].callers[e.caller], e.redirects, e.to);
  }
}
