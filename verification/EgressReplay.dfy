/**
 What callers without the claim get back. Interrupting an effect replays its record, unless the executor's
 own ending came first: then the caller gets an error. Both are stated of behaviors.
 */
module EgressReplay {
  import opened Common
  import opened EgressPolicy
  import R = EgressRuntime
  import opened EgressPrepare
  import opened EgressEffects
  import opened EgressProtocol
  import opened EgressSafety
  import opened EgressTheorems

  /** What an interrupting caller returns, given the record it interrupts. */
  function Interrupted(record: Record): Phase {
    if record.ending.status == Started || record.ending == INTERRUPTED
    then Returned(Replayed(Record(record.intent, INTERRUPTED)))
    else Returned(Refused)
  }

  lemma {:induction false} InterruptStep(w: World, c: nat, w': World)
    requires Next(w, Interrupt(c), w') && RecordsOk(w)
    ensures c in w.callers && w.callers[c].phase.Interrupting? && c in w'.callers
    ensures var id := w.callers[c].phase.found.intent.effectId;
            id in w.effects && w'.callers[c].phase == Interrupted(w.effects[id])
  {
    assert MoveOf(w.callers[c], Interrupt(c), |w.ops|, w.effects) == EndMove(w.callers[c], Interrupt(c), w.effects);
    assert RecordOk(w.effects, w.callers[c]);
  }

  /**
   In every behavior an interrupting caller finds the record it interrupts. It returns that record, now
   interrupted, exactly when the record is still open or already interrupted, and an error otherwise.
   */
  lemma {:induction false} InterruptReplaysIff(ws: seq<World>, steps: seq<Step>, i: nat, c: nat)
    requires Behavior(ws, steps) && i < |steps| && steps[i] == Interrupt(c)
    ensures c in ws[i].callers && ws[i].callers[c].phase.Interrupting? && c in ws[i + 1].callers
    ensures var id := ws[i].callers[c].phase.found.intent.effectId;
            id in ws[i].effects && ws[i + 1].callers[c].phase == Interrupted(ws[i].effects[id])
  {
    InvHolds(ws, steps, i);
    assert Next(ws[i], steps[i], ws[i + 1]);
    InterruptStep(ws[i], c, ws[i + 1]);
  }

  // ---------- A behavior that ends in the error ----------

  lemma {:induction false} ExtendsAt(ws: seq<World>, steps: seq<Step>, step: Step, w: World, i: nat)
    requires i <= |steps| && |ws| == |steps| + 1
    requires if i < |steps| then Next(ws[i], steps[i], ws[i + 1]) else Next(ws[i], step, w)
    ensures Next((ws + [w])[i], (steps + [step])[i], (ws + [w])[i + 1])
  {
    assert (ws + [w])[i] == ws[i] && (steps + [step])[i] == if i < |steps| then steps[i] else step;
    assert (ws + [w])[i + 1] == if i < |steps| then ws[i + 1] else w;
  }

  lemma {:induction false} Extends(ws: seq<World>, steps: seq<Step>, step: Step, w: World)
    requires Behavior(ws, steps) && Next(ws[|steps|], step, w)
    ensures Behavior(ws + [w], steps + [step])
  {
    forall i | 0 <= i <= |steps| ensures Next((ws + [w])[i], (steps + [step])[i], (ws + [w])[i + 1]) {
      ExtendsAt(ws, steps, step, w, i);
    }
  }

  /** A behavior, as a value. */
  datatype Trace = Trace(ws: seq<World>, steps: seq<Step>)

  ghost predicate Ends(t: Trace, w: World) {
    Behavior(t.ws, t.steps) && t.ws[|t.steps|] == w
  }

  lemma {:induction false} Grows(t: Trace, w: World, step: Step, w': World) returns (t': Trace)
    requires Ends(t, w) && Next(w, step, w')
    ensures Ends(t', w') && t'.steps == t.steps + [step]
  {
    Extends(t.ws, t.steps, step, w');
    t' := Trace(t.ws + [w'], t.steps + [step]);
  }

  function ReadyCaller(ctx: R.Context, request: HttpRequest, p: Prepared): Caller {
    Caller(ctx, request, Ready, Some(Bound(p, 0)), Some(Bound(p, 0)), None)
  }

  function With(w: World, c: nat, me: Caller): World {
    w.(callers := w.callers[c := me])
  }

  lemma {:induction false} MoveIsNext(w: World, step: Step, m: Move, w': World)
    requires MovesBy(w, step, m, w') && Justified(w, w.callers[step.c], step)
    ensures Next(w, step, w')
  {
  }

  lemma {:induction false} PlanIsNext(w: World, c: nat, me: Caller, step: Step, me': Caller)
    requires Justified(With(w, c, me), me, step) && !step.Start? && !step.Operate? && step.c == c
    requires step.Prepare? || step.Approve? || step.ReadAgain? || step.Reprepare?
    requires PlanMove(me, step, |w.ops|, w.effects) == Some(Move(me', w.effects, []))
    ensures Next(With(w, c, me), step, With(w, c, me'))
  {
    var from, to, m := With(w, c, me), With(w, c, me'), Move(me', w.effects, []);
    assert from.callers[c := me'] == to.callers && w.events + [] == w.events;
    assert MoveOf(me, step, |w.ops|, w.effects) == Some(m);
    MoveIsNext(from, step, m, to);
  }

  lemma {:induction false} Plans(t: Trace, w: World, c: nat, me: Caller, step: Step, me': Caller)
    returns (t': Trace)
    requires Ends(t, With(w, c, me)) && !step.Start? && !step.Operate? && step.c == c
    requires Justified(With(w, c, me), me, step)
    requires step.Prepare? || step.Approve? || step.ReadAgain? || step.Reprepare?
    requires PlanMove(me, step, |w.ops|, w.effects) == Some(Move(me', w.effects, []))
    ensures Ends(t', With(w, c, me'))
  {
    PlanIsNext(w, c, me, step, me');
    t' := Grows(t, With(w, c, me), step, With(w, c, me'));
  }

  lemma {:induction false} Starts(t: Trace, w: World, c: nat, ctx: R.Context, request: HttpRequest) returns (t': Trace)
    requires Ends(t, w) && c !in w.callers && Upper(request.verb) != "GET"
    ensures Ends(t', With(w, c, Caller(ctx, request, Preparing(|w.ops|), None, None, None)))
  {
    t' := Grows(t, w, Start(c, ctx, request), With(w, c, Caller(ctx, request, Preparing(|w.ops|), None, None, None)));
  }

  lemma {:induction false} PreparesNow(
    w: World, c: nat, me: Caller, ctx: R.Context, request: HttpRequest, now: nat, p: Prepared, step: Step)
    requires w.ops == [] && Prepares(w.start.state, w.start.handles, now, ctx, request, p)
    requires me.ctx == ctx && me.request == request && (me.phase == Preparing(0) || me.phase == Repreparing(0))
    requires step == Prepare(c, now, p) || step == Reprepare(c, now, p)
    ensures Justified(With(w, c, me), me, step)
  {
    assert w.ops[..0] == [];
  }

  lemma {:induction false} GetsApproved(
    t: Trace, w: World, c: nat, ctx: R.Context, request: HttpRequest, now: nat, p: Prepared)
    returns (t': Trace, approved: Caller)
    requires Ends(t, w) && c !in w.callers && w.ops == []
    requires Prepares(w.start.state, w.start.handles, now, ctx, request, p)
    ensures approved == Caller(ctx, request, Approved, Some(Bound(p, 0)), None, None)
    ensures Ends(t', With(w, c, approved))
  {
    t' := Starts(t, w, c, ctx, request);
    var first := Caller(ctx, request, Preparing(0), None, None, None);
    PreparesNow(w, c, first, ctx, request, now, p, Prepare(c, now, p));
    var asked := Caller(ctx, request, AwaitingApproval, Some(Bound(p, 0)), None, None);
    t' := Plans(t', w, c, first, Prepare(c, now, p), asked);
    approved := asked.(phase := Approved);
    t' := Plans(t', w, c, asked, Approve(c), approved);
  }

  lemma {:induction false} SameAgain(me: Caller, c: nat, now: nat, p: Prepared, effects: Effects)
    requires me.phase == Repreparing(0) && me.before == Some(Bound(p, 0)) && me.after == None && me.claim == None
    ensures PlanMove(me, Reprepare(c, now, p), 0, effects)
            == Some(Move(ReadyCaller(me.ctx, me.request, p), effects, []))
  {
  }

  /** A caller whose preparation succeeds gets ready to claim. */
  lemma {:induction false} GetsReady(
    t: Trace, w: World, c: nat, ctx: R.Context, request: HttpRequest, now: nat, p: Prepared) returns (t': Trace)
    requires Ends(t, w) && c !in w.callers && w.ops == []
    requires Prepares(w.start.state, w.start.handles, now, ctx, request, p)
    ensures Ends(t', With(w, c, ReadyCaller(ctx, request, p)))
  {
    var approved;
    t', approved := GetsApproved(t, w, c, ctx, request, now, p);
    var again := approved.(phase := Repreparing(0));
    t' := Plans(t', w, c, approved, ReadAgain(c), again);
    PreparesNow(w, c, again, ctx, request, now, p, Reprepare(c, now, p));
    SameAgain(again, c, now, p, w.effects);
    t' := Plans(t', w, c, again, Reprepare(c, now, p), ReadyCaller(ctx, request, p));
  }

  function After(w: World, c: nat, m: Move): World {
    World(w.start, w.ops, m.effects, w.callers[c := m.me], w.events + m.events)
  }

  lemma {:induction false} Acts(t: Trace, w: World, step: Step, m: Move) returns (t': Trace)
    requires Ends(t, w) && !step.Start? && !step.Operate? && !step.Prepare? && !step.Reprepare?
    requires step.c in w.callers && MoveOf(w.callers[step.c], step, |w.ops|, w.effects) == Some(m)
    ensures Ends(t', After(w, step.c, m)) && t'.steps == t.steps + [step]
  {
    MoveIsNext(w, step, m, After(w, step.c, m));
    t' := Grows(t, w, step, After(w, step.c, m));
  }

  /** The caller is ready to claim the intent. */
  predicate ReadyFor(w: World, c: nat, intent: Intent) {
    && c in w.callers && w.callers[c].phase.Ready? && w.callers[c].after.Some?
    && w.callers[c].ctx.effectScope.Some?
    && IntentFor(w.callers[c].ctx, w.callers[c].after.value.prepared) == intent
  }

  lemma {:induction false} BothReady(start: R.Broker, now: nat, ctx: R.Context, request: HttpRequest, p: Prepared)
    returns (t: Trace, w: World)
    requires WellFormed(start.state.policy) && ctx.effectScope.Some?
    requires Prepares(start.state, start.handles, now, ctx, request, p)
    ensures Ends(t, w) && w.start == start && w.effects == map[]
    ensures ReadyFor(w, 0, IntentFor(ctx, p)) && ReadyFor(w, 1, IntentFor(ctx, p))
  {
    w := World(start, [], map[], map[], []);
    t := Trace([w], []);
    t := GetsReady(t, w, 0, ctx, request, now, p);
    w := With(w, 0, ReadyCaller(ctx, request, p));
    t := GetsReady(t, w, 1, ctx, request, now, p);
    w := With(w, 1, ReadyCaller(ctx, request, p));
  }

  /** Caller 0 claims; caller 1 comes second, with the same intent, and finds the record open. */
  lemma {:induction false} BothClaim(t: Trace, w: World, intent: Intent) returns (t': Trace, w': World)
    requires Ends(t, w) && w.effects == map[]
    requires ReadyFor(w, 0, intent) && ReadyFor(w, 1, intent)
    ensures Ends(t', w') && w'.start == w.start && w'.effects == map[intent.effectId := Record(intent, OPEN)]
    ensures 0 in w'.callers && w'.callers[0].phase == Executing(Record(intent, OPEN), 0) && w'.callers[0].after.Some?
    ensures 1 in w'.callers && w'.callers[1].phase == Interrupting(Record(intent, OPEN))
  {
    var one, two := w.callers[0], w.callers[1];
    var effects := map[intent.effectId := Record(intent, OPEN)];
    var claimed := one.(phase := Executing(Record(intent, OPEN), 0), claim := Some(intent.effectId));
    var m := Move(claimed, effects, [Claimed(0, intent.effectId)]);
    t' := Acts(t, w, Begin(0), m);
    var m' := Move(two.(phase := Interrupting(Record(intent, OPEN))), effects, []);
    t' := Acts(t', After(w, 0, m), Begin(1), m');
    w' := After(After(w, 0, m), 1, m');
  }

  lemma {:induction false} OnePersists(t: Trace, w: World, record: Record, r: HttpResponse)
    returns (t': Trace, w': World)
    requires Ends(t, w) && w.effects == map[record.intent.effectId := record] && record.ending == OPEN
    requires 0 in w.callers && w.callers[0].phase == Persisting(record, Responded(r))
    requires 1 in w.callers
    ensures Ends(t', w') && w'.start == w.start && 1 in w'.callers && w'.callers[1] == w.callers[1]
    ensures w'.effects == map[record.intent.effectId := Record(record.intent, EndingFor(Responded(r)))]
  {
    var id := record.intent.effectId;
    var ended := map[id := Record(record.intent, EndingFor(Responded(r)))];
    assert Finished(w.effects, id, EndingFor(Responded(r))) == ended;
    var done := Move(w.callers[0].(phase := Returned(Executed(id))), ended, []);
    t' := Acts(t, w, Persist(0), done);
    w' := After(w, 0, done);
  }

  /** Caller 0 sends its one hop, gets `r` and persists the ending; caller 1 is where it was. */
  lemma {:induction false} OneFinishes(t: Trace, w: World, record: Record, r: HttpResponse)
    returns (t': Trace, w': World)
    requires Ends(t, w) && w.effects == map[record.intent.effectId := record] && record.ending == OPEN
    requires 0 in w.callers && w.callers[0].phase == Executing(record, 0) && w.callers[0].after.Some?
    requires 1 in w.callers && w.callers[1].phase == Interrupting(record)
    ensures Ends(t', w') && w'.start == w.start
    ensures w'.effects == map[record.intent.effectId := Record(record.intent, EndingFor(Responded(r)))]
    ensures 1 in w'.callers && w'.callers[1].phase == Interrupting(record)
  {
    var me, id := w.callers[0], record.intent.effectId;
    var to := me.after.value.prepared.destination;
    var sent := Move(me.(phase := InFlight(record, 0)), w.effects, [HopSent(0, id, 0, to)]);
    t' := Acts(t, w, SendHop(0, to), sent);
    w' := After(w, 0, sent);
    var seen := Move(me.(phase := Persisting(record, Responded(r))), w.effects,
                     [StatusSeen(0, id, r.status, r.responseBytes)]);
    t' := Acts(t', w', Final(0, r), seen);
    w' := After(w', 0, seen);
    t', w' := OnePersists(t', w', record, r);
  }

  /** Caller 1 now interrupts, too late. */
  lemma {:induction false} OtherIsRefused(t: Trace, w: World, record: Record, r: HttpResponse)
    returns (t': Trace, w': World)
    requires Ends(t, w) && 1 in w.callers && w.callers[1].phase == Interrupting(record)
    requires w.effects == map[record.intent.effectId := Record(record.intent, EndingFor(Responded(r)))]
    ensures Ends(t', w') && w'.start == w.start && w'.effects == w.effects
    ensures 1 in w'.callers && w'.callers[1].phase == Returned(Refused) && t'.steps == t.steps + [Interrupt(1)]
  {
    var m := Move(w.callers[1].(phase := Returned(Refused)), w.effects, []);
    assert EndingFor(Responded(r)) != INTERRUPTED && Terminal(EndingFor(Responded(r)).status);
    t' := Acts(t, w, Interrupt(1), m);
    w' := After(w, 1, m);
  }

  lemma {:induction false} SameStart(ws: seq<World>, steps: seq<Step>, i: nat)
    requires Behavior(ws, steps) && i < |ws|
    ensures ws[i].start == ws[0].start
  {
    if i > 0 {
      SameStart(ws, steps, i - 1);
      assert Next(ws[i - 1], steps[i - 1], ws[i]);
    }
  }

  /**
   The error does happen, for every mutation that can be prepared at all and every response: two callers
   prepare the same request, one claims and executes it, and the other, which found it open, interrupts too
   late. It gets an error although the effect has ended with the response, with success if that is below 400.
   */
  lemma {:induction false} ReplayCanBeRefused(
    start: R.Broker, now: nat, ctx: R.Context, request: HttpRequest, p: Prepared, r: HttpResponse)
    returns (ws: seq<World>, steps: seq<Step>)
    requires WellFormed(start.state.policy) && ctx.effectScope.Some?
    requires Prepares(start.state, start.handles, now, ctx, request, p)
    ensures Behavior(ws, steps) && ws[0].start == start && |steps| > 0 && steps[|steps| - 1] == Interrupt(1)
    ensures var last, intent := ws[|steps|], IntentFor(ctx, p);
            && last.effects == map[intent.effectId := Record(intent, EndingFor(Responded(r)))]
            && (r.status < 400 ==> last.effects[intent.effectId].ending.status == Succeeded)
            && 1 in last.callers && last.callers[1].phase == Returned(Refused)
  {
    var record := Record(IntentFor(ctx, p), OPEN);
    var t, w := BothReady(start, now, ctx, request, p);
    t, w := BothClaim(t, w, record.intent);
    t, w := OneFinishes(t, w, record, r);
    t, w := OtherIsRefused(t, w, record, r);
    SameStart(t.ws, t.steps, |t.steps|);
    ws, steps := t.ws, t.steps;
  }

  // ---------- Mutations that can be prepared ----------

  const SITE: Destination := Destination(
    "d", 1, true, "https", Lower("h"), 443, ["/"], {Upper(Upper("POST"))}, {}, 0,
    10, 10, 10, 10, 10, 10, 10, 10, {})

  const POLICY: Policy := Policy(true, SessionLimits(10, 10, 10, 10), map["d" := SITE], ["d"], map[])

  const REQUEST: HttpRequest := HttpRequest(
    "POST", "u", Some(Url("https", "h", Some(443), "/", None, "u", true)), map[], None, None, None)

  const CALLER: R.Context := R.Context("s", None, {R.DestinationGrant("d")}, Some("e"))

  lemma {:induction false} PolicyIsWellFormed()
    ensures WellFormed(POLICY)
  {
    assert POLICY.order[1..] == [];
  }

  lemma {:induction false} RequestIsGranted(url: Url)
    requires REQUEST.parsed == Some(url)
    ensures Authorize(POLICY, REQUEST.url, REQUEST.parsed, Upper(REQUEST.verb)) == Ok(Authorized(SITE, url))
  {
    var verb := Upper(Upper(REQUEST.verb));
    assert verb in SITE.methods && PathPrefixMatches(SITE.pathPrefixes[0], url.path);
    assert Allows(SITE, url, verb);
    assert POLICY.order[0] == "d";
    assert FirstAllowing(POLICY, POLICY.order, url, verb) == Some(SITE);
  }

  /** There is such a mutation, so there is such a behavior. */
  lemma {:induction false} SomeReplayIsRefused(r: HttpResponse) returns (ws: seq<World>, steps: seq<Step>)
    requires r.status < 400
    ensures Behavior(ws, steps) && |steps| > 0 && steps[|steps| - 1] == Interrupt(1)
    ensures var last := ws[|steps|];
            && 1 in last.callers && last.callers[1].phase == Returned(Refused)
            && exists id :: id in last.effects && last.effects[id].ending.status == Succeeded
  {
    var start := R.Broker(R.RuntimeState(POLICY, {}, {}, 1), map[]);
    var target := OfTarget(SITE, None);
    var request := OfRequest(Upper("POST"), "u", map[], 0, OfBody(""), None, None, target);
    var p := Prepared(
      start.state, Authorized(SITE, REQUEST.parsed.value), 1, "d", 1, "u", target, request, OfQuery(""),
      RequestSize(REQUEST, "u"), None);
    PolicyIsWellFormed();
    RequestIsGranted(REQUEST.parsed.value);
    assert Canonical(REQUEST.headers, map[]);
    assert HeaderBytes(REQUEST.headers) == 0;
    assert Prepares(start.state, start.handles, 0, CALLER, REQUEST, p);
    ws, steps := ReplayCanBeRefused(start, 0, CALLER, REQUEST, p, r);
    assert IntentFor(CALLER, p).effectId in ws[|steps|].effects;
  }
}
