/**
 Safety of the mutation protocol over every behavior: at-most-once execution, final and honest
 records, and the binding of what was approved to what is executed.
 */
module EgressSafety {
  import opened Common
  import opened EgressPolicy
  import R = EgressRuntime
  import opened EgressPrepare
  import opened EgressEffects
  import opened EgressProtocol

  // ---------- Snapshots ----------

  ghost predicate PreparedIn(st: R.RuntimeState, ctx: R.Context, request: HttpRequest, p: Prepared) {
    exists handles, now :: Prepares(st, handles, now, ctx, request, p)
  }

  ghost predicate BoundOk(w: World, ctx: R.Context, request: HttpRequest, b: Option<Bound>) {
    b.Some? ==> b.value.at <= |w.ops| && PreparedIn(StateAt(w, b.value.at), ctx, request, b.value.prepared)
  }

  /** Phases that come after the second snapshot, or that ended before it. */
  predicate Late(phase: Phase) {
    !phase.Preparing? && !phase.AwaitingApproval? && !phase.Approved? && !phase.Repreparing?
  }

  /** The order in which a caller takes its snapshots and its claim; `now` is the length of the operator's log. */
  predicate Ordered(me: Caller, now: nat) {
    && Upper(me.request.verb) != "GET"
    && (me.after.Some? ==>
          && me.before.Some? && me.before.value.at <= me.after.value.at
          && SamePrepared(me.before.value.prepared, me.after.value.prepared))
    && (!Late(me.phase) ==> me.after.None? && me.claim.None?)
    && (me.phase.Preparing? ==> me.before.None? && me.phase.snapshotAt <= now)
    && (me.phase.AwaitingApproval? || me.phase.Approved? || me.phase.Repreparing? ==>
          me.before.Some? && me.before.value.at <= now)
    && (me.phase.Repreparing? ==> me.before.value.at <= me.phase.snapshotAt <= now)
    && (me.claim.Some? ==>
          && me.after.Some? && me.ctx.effectScope.Some?
          && me.claim.value == IntentFor(me.ctx, me.after.value.prepared).effectId)
  }

  ghost predicate SnapshotsOk(w: World, me: Caller) {
    && BoundOk(w, me.ctx, me.request, me.before)
    && BoundOk(w, me.ctx, me.request, me.after)
    && Ordered(me, |w.ops|)
  }

  ghost predicate AllSnapshotsOk(w: World) {
    forall c :: c in w.callers ==> SnapshotsOk(w, w.callers[c])
  }

  lemma {:induction false} LongerLogKeepsSnapshots(w: World, w': World, me: Caller)
    requires SnapshotsOk(w, me) && w'.start == w.start && w.ops <= w'.ops
    ensures SnapshotsOk(w', me)
  {
    forall at: nat | at <= |w.ops| ensures StateAt(w', at) == StateAt(w, at) {
      assert w'.ops[..at] == w.ops[..at];
    }
  }

  lemma {:induction false} PreparedKeepsBounds(w: World, me: Caller, now: nat, p: Prepared)
    requires Ordered(me, |w.ops|) && (me.phase.Preparing? || me.phase.Repreparing?)
    requires Prepares(StateAt(w, me.phase.snapshotAt), HandlesNow(w), now, me.ctx, me.request, p)
    ensures BoundOk(w, me.ctx, me.request, Some(Bound(p, me.phase.snapshotAt)))
  {
    assert PreparedIn(StateAt(w, me.phase.snapshotAt), me.ctx, me.request, p);
  }

  /** `me'` is `me` further on, with the snapshots it had and in order. */
  predicate KeptOrder(me: Caller, me': Caller, step: Step, now: nat) {
    && Ordered(me', now)
    && me'.ctx == me.ctx && me'.request == me.request
    && (me'.before == me.before || step.Prepare?)
    && (me'.after == me.after || step.Reprepare?)
  }

  lemma {:induction false} PlanKeepsOrder(me: Caller, step: Step, now: nat, effects: Effects)
    requires Ordered(me, now) && PlanMove(me, step, now, effects).Some?
    ensures KeptOrder(me, PlanMove(me, step, now, effects).value.me, step, now)
  {
  }

  lemma {:induction false} BeginKeepsOrder(me: Caller, step: Step, c: nat, now: nat, effects: Effects)
    requires Ordered(me, now) && BeginMove(me, c, effects).Some?
    ensures KeptOrder(me, BeginMove(me, c, effects).value.me, step, now)
  {
  }

  lemma {:induction false} RunKeepsOrder(me: Caller, step: Step, now: nat, effects: Effects)
    requires Ordered(me, now)
    ensures HopMove(me, step, effects).Some? ==> KeptOrder(me, HopMove(me, step, effects).value.me, step, now)
    ensures EndMove(me, step, effects).Some? ==> KeptOrder(me, EndMove(me, step, effects).value.me, step, now)
    ensures KeptOrder(me, me.(phase := Crashed), step, now)
  {
  }

  lemma {:induction false} MoveKeepsOrder(me: Caller, step: Step, now: nat, effects: Effects)
    requires Ordered(me, now) && !step.Start? && !step.Operate?
    requires MoveOf(me, step, now, effects).Some?
    ensures KeptOrder(me, MoveOf(me, step, now, effects).value.me, step, now)
  {
    match step
    case Begin(c) => BeginKeepsOrder(me, step, c, now, effects);
    case _ =>
      if PlanMove(me, step, now, effects).Some? {
        PlanKeepsOrder(me, step, now, effects);
      } else {
        RunKeepsOrder(me, step, now, effects);
      }
  }

  lemma {:induction false} MoverKeepsSnapshots(w: World, step: Step, w': World)
    requires AllSnapshotsOk(w) && Next(w, step, w') && !step.Start? && !step.Operate?
    ensures SnapshotsOk(w', w'.callers[step.c])
  {
    var me := w.callers[step.c];
    MoveKeepsOrder(me, step, |w.ops|, w.effects);
    if step.Prepare? || step.Reprepare? {
      PreparedKeepsBounds(w, me, step.now, step.prepared);
    }
    LongerLogKeepsSnapshots(w, w', w'.callers[step.c]);
  }

  lemma {:induction false} StepKeepsSnapshots(w: World, step: Step, w': World)
    requires AllSnapshotsOk(w) && Next(w, step, w')
    ensures AllSnapshotsOk(w')
  {
    forall c | c in w'.callers ensures SnapshotsOk(w', w'.callers[c]) {
      if !step.Start? && !step.Operate? && step.c == c {
        MoverKeepsSnapshots(w, step, w');
      } else if c in w.callers {
        LongerLogKeepsSnapshots(w, w', w.callers[c]);
      }
    }
  }

  // ---------- Claims ----------

  /** A caller at work on an effect holds the claim to it; one about to claim or interrupt holds none. */
  predicate HoldsItsClaim(me: Caller) {
    && (me.phase.Executing? || me.phase.InFlight? || me.phase.Persisting? ==>
          me.claim == Some(me.phase.effect.intent.effectId))
    && (me.phase.Returned? && me.phase.result.Executed? ==> me.claim == Some(me.phase.result.effectId))
    && (me.phase.Ready? || me.phase.Interrupting? || !Late(me.phase) ==> me.claim.None?)
  }

  /** The step leaves claims alone: it touches no new effect and acts only on the caller's own. */
  predicate ActsOnOwn(me: Caller, c: nat, m: Move, effects: Effects) {
    && m.me.claim == me.claim
    && m.effects.Keys == effects.Keys
    && (forall e :: e in m.events ==> e.caller == c && me.claim == Some(e.effectId) && !e.Claimed?)
  }

  /** The step claims an effect nobody had. */
  predicate ClaimsNew(me: Caller, c: nat, m: Move, effects: Effects) {
    && me.claim.None? && m.me.claim.Some?
    && m.me.claim.value !in effects
    && m.effects.Keys == effects.Keys + {m.me.claim.value}
    && m.events == [Claimed(c, m.me.claim.value)]
  }

  lemma {:induction false} MoveClaims(me: Caller, c: nat, step: Step, now: nat, effects: Effects)
    requires HoldsItsClaim(me) && !step.Start? && !step.Operate? && step.c == c
    requires MoveOf(me, step, now, effects).Some?
    ensures var m := MoveOf(me, step, now, effects).value;
            HoldsItsClaim(m.me) && (ActsOnOwn(me, c, m, effects) || ClaimsNew(me, c, m, effects))
  {
  }

  predicate UniqueClaims(events: seq<Event>) {
    forall i, j :: 0 <= i < |events| && 0 <= j < |events|
                   && events[i].Claimed? && events[j].Claimed? && events[i].effectId == events[j].effectId
                   ==> i == j
  }

  /** Which caller holds which effect. */
  function ClaimBook(callers: map<nat, Caller>): map<nat, Digest> {
    map c | c in callers && callers[c].claim.Some? :: callers[c].claim.value
  }

  /**
   Every known effect is held by exactly one caller, each event is by the holder of its effect, and the
   log holds one claim per effect.
   */
  ghost predicate BookOk(claims: map<nat, Digest>, ids: set<Digest>, events: seq<Event>) {
    && (forall c :: c in claims ==> claims[c] in ids && Claimed(c, claims[c]) in events)
    && (forall c, d :: c in claims && d in claims && claims[c] == claims[d] ==> c == d)
    && (forall id :: id in ids ==> exists c :: c in claims && claims[c] == id)
    && (forall e :: e in events ==> e.caller in claims && claims[e.caller] == e.effectId)
    && UniqueClaims(events)
  }

  lemma {:induction false} OwnActsKeepBook(
    claims: map<nat, Digest>, ids: set<Digest>, events: seq<Event>, more: seq<Event>)
    requires BookOk(claims, ids, events)
    requires forall e :: e in more ==> e.caller in claims && claims[e.caller] == e.effectId && !e.Claimed?
    ensures BookOk(claims, ids, events + more)
  {
  }

  lemma {:induction false} NewClaimKeepsBook(
    claims: map<nat, Digest>, ids: set<Digest>, events: seq<Event>, c: nat, id: Digest)
    requires BookOk(claims, ids, events) && c !in claims && id !in ids
    ensures BookOk(claims[c := id], ids + {id}, events + [Claimed(c, id)])
  {
    var claims' := claims[c := id];
    assert claims'[c] == id;
    forall i | i in ids + {id} ensures exists d :: d in claims' && claims'[d] == i {
      if i != id {
        var d :| d in claims && claims[d] == i;
        assert claims'[d] == i;
      }
    }
    assert forall e :: e in events ==> e.effectId != id;
  }

  ghost predicate ClaimsOk(w: World) {
    && BookOk(ClaimBook(w.callers), w.effects.Keys, w.events)
    && (forall c :: c in w.callers ==> HoldsItsClaim(w.callers[c]))
  }

  /** A caller's step, without the justification of its snapshots. */
  predicate MovesBy(w: World, step: Step, m: Move, w': World) {
    && !step.Start? && !step.Operate? && step.c in w.callers
    && MoveOf(w.callers[step.c], step, |w.ops|, w.effects) == Some(m)
    && w' == World(w.start, w.ops, m.effects, w.callers[step.c := m.me], w.events + m.events)
  }

  /** A step that is not a caller's leaves store, log and existing callers alone. */
  predicate Elsewhere(w: World, w': World) {
    && w'.effects == w.effects && w'.events == w.events
    && (forall c :: c in w.callers ==> c in w'.callers && w'.callers[c] == w.callers[c])
    && (forall c :: c in w'.callers && c !in w.callers ==> w'.callers[c].phase.Preparing? && w'.callers[c].claim.None?)
  }

  /** What a step can be: one caller's move, or something that leaves callers, effects and events alone. */
  ghost predicate Shaped(w: World, step: Step, w': World) {
    Elsewhere(w, w') || exists m :: MovesBy(w, step, m, w')
  }

  lemma {:induction false} StepShape(w: World, step: Step, w': World)
    requires Next(w, step, w')
    ensures Shaped(w, step, w')
  {
    if !step.Start? && !step.Operate? {
      assert MovesBy(w, step, MoveOf(w.callers[step.c], step, |w.ops|, w.effects).value, w');
    }
  }

  lemma {:induction false} ClaimBookMoves(callers: map<nat, Caller>, c: nat, me: Caller)
    requires c in callers
    ensures me.claim == callers[c].claim ==> ClaimBook(callers[c := me]) == ClaimBook(callers)
    ensures me.claim.Some? && callers[c].claim.None? ==>
              ClaimBook(callers[c := me]) == ClaimBook(callers)[c := me.claim.value]
  {
  }

  lemma {:induction false} ClaimBookElsewhere(w: World, w': World)
    requires Elsewhere(w, w')
    ensures ClaimBook(w'.callers) == ClaimBook(w.callers)
  {
  }

  lemma {:induction false} MoveKeepsBook(w: World, c: nat, m: Move)
    requires BookOk(ClaimBook(w.callers), w.effects.Keys, w.events) && c in w.callers
    requires ActsOnOwn(w.callers[c], c, m, w.effects) || ClaimsNew(w.callers[c], c, m, w.effects)
    ensures BookOk(ClaimBook(w.callers[c := m.me]), m.effects.Keys, w.events + m.events)
  {
    ClaimBookMoves(w.callers, c, m.me);
    if ClaimsNew(w.callers[c], c, m, w.effects) {
      NewClaimKeepsBook(ClaimBook(w.callers), w.effects.Keys, w.events, c, m.me.claim.value);
    } else {
      OwnActsKeepBook(ClaimBook(w.callers), w.effects.Keys, w.events, m.events);
    }
  }

  lemma {:induction false} MoveKeepsClaims(w: World, step: Step, m: Move, w': World)
    requires ClaimsOk(w) && MovesBy(w, step, m, w')
    ensures ClaimsOk(w')
  {
    MoveClaims(w.callers[step.c], step.c, step, |w.ops|, w.effects);
    MoveKeepsBook(w, step.c, m);
  }

  lemma {:induction false} StepKeepsClaims(w: World, step: Step, w': World)
    requires ClaimsOk(w) && Shaped(w, step, w')
    ensures ClaimsOk(w')
  {
    if Elsewhere(w, w') {
      ClaimBookElsewhere(w, w');
    } else {
      var m :| MovesBy(w, step, m, w');
      MoveKeepsClaims(w, step, m, w');
    }
  }

  // ---------- Hops ----------

  function Hops(events: seq<Event>, id: Digest): nat {
    if events == [] then 0
    else
      var last := events[|events| - 1];
      Hops(events[..|events| - 1], id) + if last.HopSent? && last.effectId == id then 1 else 0
  }

  lemma {:induction false} HopsAppend(events: seq<Event>, more: seq<Event>, id: Digest)
    ensures Hops(events + more, id) == Hops(events, id) + Hops(more, id)
    decreases |more|
  {
    if more == [] {
      assert events + more == events;
    } else {
      HopsAppend(events, more[..|more| - 1], id);
      assert (events + more)[..|events + more| - 1] == events + more[..|more| - 1];
    }
  }

  lemma {:induction false} NoEventNoHops(events: seq<Event>, id: Digest)
    requires forall e :: e in events ==> e.effectId != id
    ensures Hops(events, id) == 0
    decreases |events|
  {
    if events != [] {
      NoEventNoHops(events[..|events| - 1], id);
    }
  }

  /** Methods other than GET and HEAD get one hop, the others their destination's redirect cap and one. */
  function HopCap(me: Caller): nat {
    if FollowsRedirects(me.request) then RedirectCap(me) + 1 else 1
  }

  /** How many hops the caller's effect can have cost, by phase. */
  predicate HopsFit(me: Caller, n: nat) {
    match me.phase
    case Executing(_, r) => n == r && r < HopCap(me)
    case InFlight(_, r) => n == r + 1 && r < HopCap(me)
    case _ => n <= HopCap(me)
  }

  lemma {:induction false} MoveKeepsHops(me: Caller, c: nat, step: Step, now: nat, effects: Effects, n: nat)
    requires HoldsItsClaim(me) && !step.Start? && !step.Operate? && step.c == c
    requires MoveOf(me, step, now, effects).Some? && me.claim.Some? && HopsFit(me, n)
    ensures var m := MoveOf(me, step, now, effects).value; HopsFit(m.me, n + Hops(m.events, me.claim.value))
  {
    var m := MoveOf(me, step, now, effects).value;
    assert |m.events| == 1 ==> m.events[..0] == [];
  }

  ghost predicate HopsOk(w: World) {
    forall c :: c in w.callers && w.callers[c].claim.Some? ==>
      HopsFit(w.callers[c], Hops(w.events, w.callers[c].claim.value))
  }

  lemma {:induction false} ClaimStartsWithoutHops(me: Caller, c: nat, step: Step, now: nat, effects: Effects)
    requires HoldsItsClaim(me) && !step.Start? && !step.Operate? && step.c == c
    requires MoveOf(me, step, now, effects).Some? && me.claim.None?
    requires MoveOf(me, step, now, effects).value.me.claim.Some?
    ensures var m := MoveOf(me, step, now, effects).value;
            HopsFit(m.me, 0) && forall id :: Hops(m.events, id) == 0
  {
    var m := MoveOf(me, step, now, effects).value;
    assert m.events[..0] == [];
  }

  lemma {:induction false} MoverKeepsHops(w: World, step: Step, m: Move, w': World)
    requires ClaimsOk(w) && HopsOk(w) && MovesBy(w, step, m, w') && m.me.claim.Some?
    ensures HopsFit(m.me, Hops(w'.events, m.me.claim.value))
  {
    var me, id := w.callers[step.c], m.me.claim.value;
    MoveClaims(me, step.c, step, |w.ops|, w.effects);
    HopsAppend(w.events, m.events, id);
    if me.claim.Some? {
      MoveKeepsHops(me, step.c, step, |w.ops|, w.effects, Hops(w.events, id));
    } else {
      NoEventNoHops(w.events, id);
      ClaimStartsWithoutHops(me, step.c, step, |w.ops|, w.effects);
    }
  }

  lemma {:induction false} OthersKeepHops(w: World, step: Step, m: Move, w': World, d: nat)
    requires ClaimsOk(w) && HopsOk(w) && MovesBy(w, step, m, w')
    requires d in w.callers && d != step.c && w.callers[d].claim.Some?
    ensures HopsFit(w.callers[d], Hops(w'.events, w.callers[d].claim.value))
  {
    var id := w.callers[d].claim.value;
    MoveClaims(w.callers[step.c], step.c, step, |w.ops|, w.effects);
    assert ClaimBook(w.callers)[d] == id;
    assert step.c in ClaimBook(w.callers) ==> ClaimBook(w.callers)[step.c] != id;
    HopsAppend(w.events, m.events, id);
    NoEventNoHops(m.events, id);
  }

  lemma {:induction false} MoveKeepsAllHops(w: World, step: Step, m: Move, w': World)
    requires ClaimsOk(w) && HopsOk(w) && MovesBy(w, step, m, w')
    ensures HopsOk(w')
  {
    forall d | d in w'.callers && w'.callers[d].claim.Some?
      ensures HopsFit(w'.callers[d], Hops(w'.events, w'.callers[d].claim.value))
    {
      if d == step.c {
        MoverKeepsHops(w, step, m, w');
      } else {
        OthersKeepHops(w, step, m, w', d);
      }
    }
  }

  lemma {:induction false} StepKeepsHops(w: World, step: Step, w': World)
    requires ClaimsOk(w) && HopsOk(w) && Shaped(w, step, w')
    ensures HopsOk(w')
  {
    if !Elsewhere(w, w') {
      var m :| MovesBy(w, step, m, w');
      MoveKeepsAllHops(w, step, m, w');
    }
  }

  // ---------- Records ----------

  /** Records are only added, keep their intent, and never change once terminal. */
  ghost predicate Advances(effects: Effects, effects': Effects) {
    forall id :: id in effects ==>
      && id in effects'
      && effects'[id].intent == effects[id].intent
      && (Terminal(effects[id].ending.status) ==> effects'[id] == effects[id])
  }

  /** What a caller may rely on about the store. */
  ghost predicate RecordOk(effects: Effects, me: Caller) {
    match me.phase
    case Interrupting(found) => found.intent.effectId in effects
    case Returned(Executed(id)) => id in effects && Terminal(effects[id].ending.status)
    case Returned(Replayed(r)) =>
      && Terminal(r.ending.status)
      && r.intent.effectId in effects && effects[r.intent.effectId] == r
    case _ => true
  }

  ghost predicate Keyed(effects: Effects) {
    forall id :: id in effects ==> effects[id].intent.effectId == id
  }

  ghost predicate RecordsOk(w: World) {
    && Keyed(w.effects)
    && (forall c :: c in w.callers ==> RecordOk(w.effects, w.callers[c]))
  }

  lemma {:induction false} BeginAdvances(me: Caller, c: nat, effects: Effects)
    requires Keyed(effects) && BeginMove(me, c, effects).Some?
    ensures var after := BeginMove(me, c, effects).value.effects; Keyed(after) && Advances(effects, after)
  {
  }

  lemma {:induction false} EndAdvances(me: Caller, step: Step, effects: Effects)
    requires Keyed(effects) && EndMove(me, step, effects).Some?
    ensures var after := EndMove(me, step, effects).value.effects; Keyed(after) && Advances(effects, after)
  {
  }

  lemma {:induction false} MoveAdvances(me: Caller, step: Step, now: nat, effects: Effects)
    requires Keyed(effects) && !step.Start? && !step.Operate? && MoveOf(me, step, now, effects).Some?
    ensures var m := MoveOf(me, step, now, effects).value;
            Keyed(m.effects) && Advances(effects, m.effects)
  {
    if step.Begin? {
      BeginAdvances(me, step.c, effects);
    } else if step.Interrupt? || step.Persist? {
      EndAdvances(me, step, effects);
    } else {
      assert MoveOf(me, step, now, effects).value.effects == effects;
    }
  }

  lemma {:induction false} MoveKeepsRecord(
    me: Caller, step: Step, now: nat, effects: Effects)
    requires Keyed(effects) && RecordOk(effects, me) && HoldsItsClaim(me)
    requires me.claim.Some? ==> me.claim.value in effects
    requires !step.Start? && !step.Operate? && MoveOf(me, step, now, effects).Some?
    ensures var m := MoveOf(me, step, now, effects).value;
            RecordOk(m.effects, m.me)
  {
  }

  lemma {:induction false} OthersKeepRecord(
    effects: Effects, effects': Effects, other: Caller)
    requires RecordOk(effects, other) && Advances(effects, effects')
    ensures RecordOk(effects', other)
  {
  }

  lemma {:induction false} MoveKeepsRecords(w: World, step: Step, m: Move, w': World)
    requires ClaimsOk(w) && RecordsOk(w) && MovesBy(w, step, m, w')
    ensures RecordsOk(w') && Advances(w.effects, w'.effects)
  {
    var c := step.c;
    var me := w.callers[c];
    assert me.claim.Some? ==> ClaimBook(w.callers)[c] == me.claim.value;
    MoveAdvances(me, step, |w.ops|, w.effects);
    forall d | d in w'.callers ensures RecordOk(w'.effects, w'.callers[d]) {
      if d == c {
        MoveKeepsRecord(me, step, |w.ops|, w.effects);
      } else {
        OthersKeepRecord(w.effects, w'.effects, w.callers[d]);
      }
    }
  }

  lemma {:induction false} ElsewhereKeepsRecords(w: World, w': World)
    requires RecordsOk(w) && Elsewhere(w, w')
    ensures RecordsOk(w') && Advances(w.effects, w'.effects)
  {
  }

  lemma {:induction false} StepKeepsRecords(w: World, step: Step, w': World)
    requires ClaimsOk(w) && RecordsOk(w) && Shaped(w, step, w')
    ensures RecordsOk(w') && Advances(w.effects, w'.effects)
  {
    if Elsewhere(w, w') {
      ElsewhereKeepsRecords(w, w');
    } else {
      var m :| MovesBy(w, step, m, w');
      MoveKeepsRecords(w, step, m, w');
    }
  }
}
