/**
 Honest records. What a record says of its effect is what the caller that claimed it saw or failed with, in every
 behavior: a success is a status below 400, a failure is certain, and whatever may have taken effect unseen is
 left uncertain.
 */
module EgressHonesty {
  import opened Common
  import opened EgressErrors
  import opened EgressPrepare
  import opened EgressEffects
  import opened EgressProtocol
  import opened EgressSafety
  import opened EgressTheorems

  /** After these errors the request may have taken effect. */
  predicate Doubtful(error: EgressError) {
    match error
    case Transport => true
    case Timeout => true
    case Audit => true
    case Durability(_) => true
    case _ => false
  }

  /** The ending that is honest about an outcome, said case by case. */
  predicate Honest(outcome: Outcome, ending: Ending) {
    match outcome
    case Responded(r) =>
      && (r.status < 400 ==> ending.status == Succeeded && ending.errorCode == None)
      && (r.status >= 400 ==> ending.status == Failed && ending.errorCode.Some?)
      && ending.resultBytes == Some(r.responseBytes) && ending.resultDigest.Some?
    case Errored(error) =>
      && (Doubtful(error) ==> ending.status == Uncertain)
      && (!Doubtful(error) ==> ending.status == Failed)
      && ending.errorCode.Some? && ending.errorDigest.Some?
      && ending.resultBytes == None && ending.resultDigest == None
  }

  /** The executor asks for the honest ending. */
  lemma {:induction false} EndingIsHonest(outcome: Outcome)
    ensures Honest(outcome, EndingFor(outcome))
  {
  }

  predicate SameKind(e: EgressError, f: EgressError) {
    && (e.Disabled? <==> f.Disabled?) && (e.InvalidConfig? <==> f.InvalidConfig?)
    && (e.InvalidRequest? <==> f.InvalidRequest?) && (e.Denied? <==> f.Denied?)
    && (e.Revoked? <==> f.Revoked?) && (e.Budget? <==> f.Budget?) && (e.Timeout? <==> f.Timeout?)
    && (e.Dns? <==> f.Dns?) && (e.Transport? <==> f.Transport?) && (e.NonUtf8? <==> f.NonUtf8?)
    && (e.InvalidSecretHandle? <==> f.InvalidSecretHandle?)
    && (e.SecretUnavailable? <==> f.SecretUnavailable?)
    && (e.Audit? <==> f.Audit?) && (e.Durability? <==> f.Durability?)
  }

  lemma {:induction false} CodesDiffer(e: EgressError, f: EgressError)
    ensures Code(e) == Code(f) <==> SameKind(e, f)
  {
    var a, b := Code(e), Code(f);
    assert SameKind(e, f) <==> |a| == |b| && a[0] == b[0];
  }

  /** Records are closed alike exactly for the same response, or for errors of one kind. */
  lemma {:induction false} EndingsTellOutcomes(a: Outcome, b: Outcome)
    ensures EndingFor(a) == EndingFor(b) <==>
            || (a.Responded? && b.Responded? && a.response == b.response)
            || (a.Errored? && b.Errored? && SameKind(a.error, b.error))
  {
    if a.Errored? && b.Errored? {
      CodesDiffer(a.error, b.error);
    }
  }

  // ---------- Outcomes in the log ----------

  /** The log entries that end an execution. */
  predicate IsOutcome(e: Event) {
    e.StatusSeen? || e.FailedWith?
  }

  predicate OutcomeOf(e: Event, id: Digest) {
    IsOutcome(e) && e.effectId == id
  }

  predicate Says(e: Event, outcome: Outcome) {
    match outcome
    case Responded(r) => e.StatusSeen? && e.status == r.status && e.bytes == r.responseBytes
    case Errored(error) => e.FailedWith? && e.error == error
  }

  /** What a log entry means for the record of its effect. */
  predicate Tells(e: Event, ending: Ending) {
    match e
    case StatusSeen(_, _, status, bytes) =>
      && ending.status == (if status < 400 then Succeeded else Failed)
      && ending.resultBytes == Some(bytes)
    case FailedWith(_, _, error) =>
      && ending.status == (if Doubtful(error) then Uncertain else Failed)
      && ending.resultBytes == None
    case _ => false
  }

  lemma {:induction false} HonestTells(e: Event, outcome: Outcome)
    requires Says(e, outcome)
    ensures Tells(e, EndingFor(outcome))
  {
    EndingIsHonest(outcome);
  }

  predicate NoneOf(events: seq<Event>, id: Digest) {
    forall e :: e in events ==> !OutcomeOf(e, id)
  }

  /** No effect has two outcomes. */
  predicate OnlyOne(events: seq<Event>) {
    forall e, f :: e in events && f in events && IsOutcome(e) && OutcomeOf(f, e.effectId) ==> e == f
  }

  /** A caller at work has no outcome yet; one that persists has the one it persists. */
  ghost predicate PhaseTold(me: Caller, events: seq<Event>) {
    match me.phase
    case Executing(effect, _) => NoneOf(events, effect.intent.effectId)
    case InFlight(effect, _) => NoneOf(events, effect.intent.effectId)
    case Persisting(effect, outcome) =>
      exists e :: e in events && OutcomeOf(e, effect.intent.effectId) && Says(e, outcome)
    case _ => true
  }

  /** The record is open, or interrupted, or as an outcome in the log tells. */
  ghost predicate RecordTold(record: Record, id: Digest, events: seq<Event>) {
    || record.ending.status == Started
    || record.ending == INTERRUPTED
    || exists e :: e in events && OutcomeOf(e, id) && Tells(e, record.ending)
  }

  ghost predicate Told(w: World) {
    && OnlyOne(w.events)
    && (forall c :: c in w.callers ==> PhaseTold(w.callers[c], w.events))
    && (forall id :: id in w.effects ==> RecordTold(w.effects[id], id, w.events))
  }

  // ---------- One move ----------

  /** At most one new outcome, of the caller's own effect, which had none. */
  predicate OnlyOneMore(me: Caller, events: seq<Event>, more: seq<Event>) {
    && |more| <= 1
    && (forall e :: e in more && IsOutcome(e) ==> me.claim == Some(e.effectId) && NoneOf(events, e.effectId))
  }

  /** What a move adds to the log and to its caller's phase. */
  lemma {:induction false} MoveTold(me: Caller, c: nat, step: Step, now: nat, effects: Effects, events: seq<Event>)
    requires HoldsItsClaim(me) && !step.Start? && !step.Operate? && step.c == c
    requires MoveOf(me, step, now, effects).Some? && PhaseTold(me, events)
    requires forall id :: id !in effects ==> NoneOf(events, id)
    ensures var m := MoveOf(me, step, now, effects).value;
            PhaseTold(m.me, events + m.events) && OnlyOneMore(me, events, m.events)
  {
    var m := MoveOf(me, step, now, effects).value;
    if m.me.phase.Persisting? && !me.phase.Persisting? {
      assert m.events[0] in events + m.events;
      assert OutcomeOf(m.events[0], m.me.phase.effect.intent.effectId) && Says(m.events[0], m.me.phase.outcome);
    }
  }

  lemma {:induction false} OneMoreKeepsOne(me: Caller, events: seq<Event>, more: seq<Event>)
    requires OnlyOne(events) && OnlyOneMore(me, events, more)
    ensures OnlyOne(events + more)
  {
  }

  /** The outcome of another effect does not concern a caller at work on its own. */
  lemma {:induction false} OthersTold(other: Caller, me: Caller, events: seq<Event>, more: seq<Event>)
    requires PhaseTold(other, events) && HoldsItsClaim(other) && OnlyOneMore(me, events, more)
    requires other.claim.Some? ==> other.claim != me.claim
    ensures PhaseTold(other, events + more)
  {
    if other.phase.Persisting? {
      var id := other.phase.effect.intent.effectId;
      var e :| e in events && OutcomeOf(e, id) && Says(e, other.phase.outcome);
      assert e in events + more;
    }
  }

  lemma {:induction false} StillTold(record: Record, id: Digest, events: seq<Event>, more: seq<Event>)
    requires RecordTold(record, id, events)
    ensures RecordTold(record, id, events + more)
  {
    if record.ending.status != Started && record.ending != INTERRUPTED {
      var e :| e in events && OutcomeOf(e, id) && Tells(e, record.ending);
      assert e in events + more;
    }
  }

  /** A move leaves a record, opens it, interrupts it, or gives it the ending its caller persists. */
  predicate EndsAs(me: Caller, effects: Effects, after: Effects, id: Digest)
    requires id in after
  {
    || (id in effects && after[id] == effects[id])
    || after[id].ending == OPEN
    || after[id].ending == INTERRUPTED
    || (&& me.phase.Persisting? && me.phase.effect.intent.effectId == id
        && after[id].ending == EndingFor(me.phase.outcome))
  }

  lemma {:induction false} MoveEndsAs(me: Caller, step: Step, now: nat, effects: Effects, id: Digest)
    requires !step.Start? && !step.Operate? && MoveOf(me, step, now, effects).Some?
    requires id in MoveOf(me, step, now, effects).value.effects
    ensures EndsAs(me, effects, MoveOf(me, step, now, effects).value.effects, id)
  {
  }

  lemma {:induction false} EndedIsTold(me: Caller, effects: Effects, after: Effects, id: Digest, events: seq<Event>)
    requires id in after && EndsAs(me, effects, after, id) && PhaseTold(me, events)
    requires id in effects ==> RecordTold(effects[id], id, events)
    ensures RecordTold(after[id], id, events)
  {
    if me.phase.Persisting? && me.phase.effect.intent.effectId == id {
      var e :| e in events && OutcomeOf(e, id) && Says(e, me.phase.outcome);
      HonestTells(e, me.phase.outcome);
    }
  }

  /** Effects that are not in the store have no events. */
  lemma {:induction false} UnknownUntold(w: World)
    requires ClaimsOk(w)
    ensures forall id :: id !in w.effects ==> NoneOf(w.events, id)
  {
    forall id, e | id !in w.effects && e in w.events ensures !OutcomeOf(e, id) {
      assert ClaimBook(w.callers)[e.caller] == e.effectId;
    }
  }

  lemma {:induction false} OtherCallerTold(w: World, c: nat, d: nat, m: Move)
    requires ClaimsOk(w) && Told(w) && c in w.callers && d in w.callers && c != d
    requires OnlyOneMore(w.callers[c], w.events, m.events)
    ensures PhaseTold(w.callers[d], w.events + m.events)
  {
    var book := ClaimBook(w.callers);
    assert c in book && d in book ==> book[c] != book[d];
    OthersTold(w.callers[d], w.callers[c], w.events, m.events);
  }

  lemma {:induction false} MoveKeepsTold(w: World, step: Step, m: Move, w': World)
    requires ClaimsOk(w) && Told(w) && MovesBy(w, step, m, w')
    ensures Told(w')
  {
    var c := step.c;
    var me := w.callers[c];
    UnknownUntold(w);
    MoveTold(me, c, step, |w.ops|, w.effects, w.events);
    OneMoreKeepsOne(me, w.events, m.events);
    forall d | d in w'.callers ensures PhaseTold(w'.callers[d], w'.events) {
      if d != c {
        OtherCallerTold(w, c, d, m);
      }
    }
    forall id | id in w'.effects ensures RecordTold(w'.effects[id], id, w'.events) {
      MoveEndsAs(me, step, |w.ops|, w.effects, id);
      EndedIsTold(me, w.effects, m.effects, id, w.events);
      StillTold(m.effects[id], id, w.events, m.events);
    }
  }

  lemma {:induction false} StepKeepsTold(w: World, step: Step, w': World)
    requires ClaimsOk(w) && Told(w) && Next(w, step, w')
    ensures Told(w')
  {
    StepShape(w, step, w');
    if !Elsewhere(w, w') {
      var m :| MovesBy(w, step, m, w');
      MoveKeepsTold(w, step, m, w');
    }
  }

  // ---------- Every behavior ----------

  lemma {:induction false} AlwaysTold(ws: seq<World>, steps: seq<Step>, i: nat)
    requires Behavior(ws, steps) && i < |ws|
    ensures Told(ws[i])
  {
    if i > 0 {
      AlwaysTold(ws, steps, i - 1);
      InvHolds(ws, steps, i - 1);
      StepKeepsTold(ws[i - 1], steps[i - 1], ws[i]);
    }
  }

  /** The caller that claimed the effect ended its execution with this entry. */
  predicate Ended(events: seq<Event>, id: Digest, e: Event) {
    e in events && OutcomeOf(e, id) && Claimed(e.caller, id) in events
  }

  /**
   A record says Succeeded only if its claimant saw a status below 400, and then with the bytes it saw; Failed only
   if the claimant saw a status of 400 or more or failed with an error that leaves no doubt; Uncertain only if it was
   interrupted or the claimant failed with an error that leaves doubt.
   */
  lemma {:induction false} EndingsAreHonest(ws: seq<World>, steps: seq<Step>, i: nat, id: Digest)
    requires Behavior(ws, steps) && i < |ws| && id in ws[i].effects
    ensures var ending, events := ws[i].effects[id].ending, ws[i].events;
            && (ending.status == Succeeded ==>
                  exists e :: Ended(events, id, e) && e.StatusSeen? && e.status < 400
                              && ending.resultBytes == Some(e.bytes))
            && (ending.status == Failed ==>
                  exists e :: Ended(events, id, e)
                              && (e.StatusSeen? ==> e.status >= 400) && (e.FailedWith? ==> !Doubtful(e.error)))
            && (ending.status == Uncertain ==>
                  || ending == INTERRUPTED
                  || exists e :: Ended(events, id, e) && e.FailedWith? && Doubtful(e.error))
  {
    AlwaysTold(ws, steps, i);
    var ending, events := ws[i].effects[id].ending, ws[i].events;
    assert RecordTold(ws[i].effects[id], id, events);
    if ending.status != Started && ending != INTERRUPTED {
      var e :| e in events && OutcomeOf(e, id) && Tells(e, ending);
      AtMostOnce(ws, steps, i);
      assert Ended(events, id, e);
    }
  }

  /**
   And conversely: once the claimant's ending is known, a record that is closed and was not interrupted says what
   the claimant's one outcome tells.
   */
  lemma {:induction false} OutcomesAreRecorded(ws: seq<World>, steps: seq<Step>, i: nat, e: Event)
    requires Behavior(ws, steps) && i < |ws| && e in ws[i].events && IsOutcome(e)
    ensures e.effectId in ws[i].effects
    ensures var ending := ws[i].effects[e.effectId].ending;
            Terminal(ending.status) && ending != INTERRUPTED ==>
              && (e.StatusSeen? && e.status < 400 ==> ending.status == Succeeded)
              && (e.StatusSeen? && e.status >= 400 ==> ending.status == Failed)
              && (e.StatusSeen? ==> ending.resultBytes == Some(e.bytes))
              && (e.FailedWith? && Doubtful(e.error) ==> ending.status == Uncertain)
              && (e.FailedWith? && !Doubtful(e.error) ==> ending.status == Failed)
  {
    AlwaysTold(ws, steps, i);
    InvHolds(ws, steps, i);
    var id := e.effectId;
    assert ClaimBook(ws[i].callers)[e.caller] == id;
    var ending, events := ws[i].effects[id].ending, ws[i].events;
    assert RecordTold(ws[i].effects[id], id, events);
    if Terminal(ending.status) && ending != INTERRUPTED {
      var f :| f in events && OutcomeOf(f, id) && Tells(f, ending);
      assert e == f;
    }
  }
}
