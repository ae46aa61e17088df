/** Nothing is claimed or sent without approval, in every behavior. */
module EgressApproval {
  import opened Common
  import opened EgressPrepare
  import opened EgressEffects
  import opened EgressProtocol
  import opened EgressSafety
  import opened EgressTheorems

  /** The caller acts as one that was approved. */
  predicate PastApproval(me: Caller) {
    me.phase.Approved? || me.phase.Repreparing? || me.phase.Ready? || me.after.Some? || me.claim.Some?
  }

  /** How a caller past approval came from `me`: by being approved, or from being past approval already. */
  predicate CameFrom(me: Caller, me': Caller, approved: bool, now: nat) {
    && me'.before == me.before
    && if approved then me.phase.AwaitingApproval? && me'.after.None? && !me'.phase.Repreparing?
       else
         && PastApproval(me)
         && (me'.phase.Repreparing? ==> me'.phase == me.phase || me'.phase.snapshotAt == now)
         && (me'.after.Some? ==>
               me'.after == me.after || (me.phase.Repreparing? && me'.after.value.at == me.phase.snapshotAt))
  }

  lemma {:induction false} PlanCameFrom(me: Caller, step: Step, now: nat, effects: Effects)
    requires Ordered(me, now) && PlanMove(me, step, now, effects).Some?
    requires PastApproval(PlanMove(me, step, now, effects).value.me)
    ensures CameFrom(me, PlanMove(me, step, now, effects).value.me, step.Approve?, now)
  {
  }

  lemma {:induction false} BeginCameFrom(me: Caller, c: nat, now: nat, effects: Effects)
    requires Ordered(me, now) && BeginMove(me, c, effects).Some?
    ensures CameFrom(me, BeginMove(me, c, effects).value.me, false, now)
  {
  }

  lemma {:induction false} RunCameFrom(me: Caller, step: Step, now: nat, effects: Effects)
    requires Ordered(me, now)
    ensures HopMove(me, step, effects).Some? && PastApproval(HopMove(me, step, effects).value.me) ==>
              CameFrom(me, HopMove(me, step, effects).value.me, false, now)
    ensures EndMove(me, step, effects).Some? && PastApproval(EndMove(me, step, effects).value.me) ==>
              CameFrom(me, EndMove(me, step, effects).value.me, false, now)
    ensures PastApproval(me.(phase := Crashed)) ==> CameFrom(me, me.(phase := Crashed), false, now)
  {
  }

  lemma {:induction false} MoveCameFrom(me: Caller, step: Step, now: nat, effects: Effects)
    requires Ordered(me, now) && !step.Start? && !step.Operate? && MoveOf(me, step, now, effects).Some?
    requires PastApproval(MoveOf(me, step, now, effects).value.me)
    ensures CameFrom(me, MoveOf(me, step, now, effects).value.me, step.Approve?, now)
  {
    match step
    case Begin(c) => BeginCameFrom(me, c, now, effects);
    case _ =>
      if PlanMove(me, step, now, effects).Some? {
        PlanCameFrom(me, step, now, effects);
      } else {
        RunCameFrom(me, step, now, effects);
      }
  }

  lemma {:induction false} StepCameFrom(w: World, step: Step, w': World, c: nat)
    requires AllSnapshotsOk(w) && Next(w, step, w') && c in w'.callers && PastApproval(w'.callers[c])
    ensures c in w.callers && CameFrom(w.callers[c], w'.callers[c], step == Approve(c), |w.ops|)
    ensures |w.ops| <= |w'.ops|
  {
    if !step.Start? && !step.Operate? && step.c == c {
      assert SnapshotsOk(w, w.callers[c]);
      MoveCameFrom(w.callers[c], step, |w.ops|, w.effects);
    }
  }

  /** At every moment the caller, if past approval, came from where it was a step before. */
  ghost predicate AlwaysCame(ws: seq<World>, steps: seq<Step>, c: nat) {
    && |ws| == |steps| + 1 && c !in ws[0].callers
    && forall i :: 0 < i < |ws| && c in ws[i].callers && PastApproval(ws[i].callers[c]) ==>
         && c in ws[i - 1].callers && |ws[i - 1].ops| <= |ws[i].ops|
         && CameFrom(ws[i - 1].callers[c], ws[i].callers[c], steps[i - 1] == Approve(c), |ws[i - 1].ops|)
  }

  lemma {:induction false} CameAlways(ws: seq<World>, steps: seq<Step>, c: nat)
    requires Behavior(ws, steps)
    ensures AlwaysCame(ws, steps, c)
  {
    forall i | 0 < i < |ws| && c in ws[i].callers && PastApproval(ws[i].callers[c])
      ensures c in ws[i - 1].callers && |ws[i - 1].ops| <= |ws[i].ops|
      ensures CameFrom(ws[i - 1].callers[c], ws[i].callers[c], steps[i - 1] == Approve(c), |ws[i - 1].ops|)
    {
      InvHolds(ws, steps, i - 1);
      StepCameFrom(ws[i - 1], steps[i - 1], ws[i], c);
    }
  }

  /** Step `j` approved the snapshot that the caller has now, and the policy it acts on was read after that. */
  ghost predicate ApprovedAt(ws: seq<World>, steps: seq<Step>, i: nat, c: nat, j: nat)
    requires |ws| == |steps| + 1 && i < |ws|
  {
    && j < i && steps[j] == Approve(c) && c in ws[j].callers && c in ws[i].callers
    && ws[j].callers[c].phase.AwaitingApproval? && |ws[j].ops| <= |ws[i].ops|
    && var me := ws[i].callers[c];
       && ws[j].callers[c].before == me.before
       && (me.phase.Repreparing? ==> |ws[j].ops| <= me.phase.snapshotAt)
       && (me.after.Some? ==> |ws[j].ops| <= me.after.value.at)
  }

  lemma {:induction false} StaysApproved(ws: seq<World>, steps: seq<Step>, i: nat, c: nat, j: nat)
    requires |ws| == |steps| + 1 && 0 < i < |ws| && c in ws[i].callers && c in ws[i - 1].callers
    requires CameFrom(ws[i - 1].callers[c], ws[i].callers[c], false, |ws[i - 1].ops|)
    requires ApprovedAt(ws, steps, i - 1, c, j) && |ws[i - 1].ops| <= |ws[i].ops|
    ensures ApprovedAt(ws, steps, i, c, j)
  {
  }

  lemma {:induction false} ApprovedEarlier(ws: seq<World>, steps: seq<Step>, i: nat, c: nat) returns (j: nat)
    requires AlwaysCame(ws, steps, c) && i < |ws| && c in ws[i].callers && PastApproval(ws[i].callers[c])
    ensures ApprovedAt(ws, steps, i, c, j)
  {
    if steps[i - 1] == Approve(c) {
      j := i - 1;
    } else {
      j := ApprovedEarlier(ws, steps, i - 1, c);
      StaysApproved(ws, steps, i, c, j);
    }
  }

  lemma {:induction false} ActorsHaveClaims(w: World, e: Event)
    requires AllSnapshotsOk(w) && ClaimsOk(w) && e in w.events
    ensures e.caller in w.callers && w.callers[e.caller].claim.Some?
    ensures w.callers[e.caller].before.Some? && w.callers[e.caller].after.Some?
  {
    assert e.caller in ClaimBook(w.callers);
    assert SnapshotsOk(w, w.callers[e.caller]);
  }

  lemma {:induction false} AwaitingDidNothing(w: World, c: nat, e: Event)
    requires AllSnapshotsOk(w) && ClaimsOk(w) && c in w.callers && w.callers[c].phase.AwaitingApproval?
    ensures w.callers[c].before.Some? && w.callers[c].before.value.at <= |w.ops|
    ensures e.caller == c ==> e !in w.events
  {
    assert SnapshotsOk(w, w.callers[c]);
    assert c !in ClaimBook(w.callers);
  }

  /**
   Whatever a caller claims, sends or sees in a behavior, it had been approved before: on the snapshot it took
   first, and it read the policy again only after that.
   */
  lemma {:induction false} NothingUnapproved(ws: seq<World>, steps: seq<Step>, i: nat, e: Event) returns (j: nat)
    requires Behavior(ws, steps) && i < |ws| && e in ws[i].events
    ensures j < i && steps[j] == Approve(e.caller) && e !in ws[j].events
    ensures e.caller in ws[j].callers && e.caller in ws[i].callers
    ensures var me := ws[i].callers[e.caller];
            && me.before.Some? && me.after.Some? && ws[j].callers[e.caller].before == me.before
            && me.before.value.at <= |ws[j].ops| <= me.after.value.at
  {
    InvHolds(ws, steps, i);
    ActorsHaveClaims(ws[i], e);
    CameAlways(ws, steps, e.caller);
    j := ApprovedEarlier(ws, steps, i, e.caller);
    InvHolds(ws, steps, j);
    AwaitingDidNothing(ws[j], e.caller, e);
  }
}
