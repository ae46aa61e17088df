/**
 The operator's side of the egress boundary: atomic policy replacement, revocation, and the broker of
 opaque secret handles. Callers read policy snapshots at other times than they lock the handles, so
 issuing a handle takes whatever snapshot the caller had read.
 */
module EgressRuntime {
  import opened Sums
  import opened Common
  import opened EgressErrors
  import opened EgressPolicy

  const MAX_HANDLES_PER_SESSION: nat := 64
  const MAX_HANDLES_TOTAL: nat := 4096
  const HANDLE_TTL_MS: nat := 30 * 60 * 1000

  datatype Target = Target(id: string, version: u64)

  datatype RuntimeState = RuntimeState(
    policy: Policy, revokedDestinations: set<Target>, revokedSecrets: set<Target>, generation: u64)

  datatype Handle = Handle(
    sessionId: string, actorId: Option<string>, secretId: string, secretVersion: u64, expiresAt: nat)

  type Handles = map<string, Handle>

  datatype Context = Context(
    sessionId: string, actorId: Option<string>, grants: set<string>, effectScope: Option<string>)

  datatype Broker = Broker(state: RuntimeState, handles: Handles)

  // ---------- One step ----------

  predicate KeepsDestination(p: Policy, t: Target) {
    t.id in p.destinations && p.destinations[t.id].version == t.version
  }

  predicate KeepsSecret(p: Policy, t: Target) {
    t.id in p.secrets && p.secrets[t.id].version == t.version
  }

  function Replaced(st: RuntimeState, p: Policy): RuntimeState {
    RuntimeState(
      p,
      (set t | t in st.revokedDestinations && KeepsDestination(p, t)),
      (set t | t in st.revokedSecrets && KeepsSecret(p, t)),
      SatAdd(st.generation, 1))
  }

  function DestinationRevoked(st: RuntimeState, id: string): RuntimeState {
    if id in st.policy.destinations
    then st.(revokedDestinations := st.revokedDestinations + {Target(id, st.policy.destinations[id].version)})
    else st
  }

  function SecretRevoked(st: RuntimeState, id: string): RuntimeState {
    if id in st.policy.secrets
    then st.(revokedSecrets := st.revokedSecrets + {Target(id, st.policy.secrets[id].version)})
    else st
  }

  function Live(handles: Handles, now: nat): Handles {
    map token | token in handles && handles[token].expiresAt > now :: handles[token]
  }

  function Current(handles: Handles, p: Policy): Handles {
    map token | token in handles && KeepsSecret(p, Target(handles[token].secretId, handles[token].secretVersion))
             :: handles[token]
  }

  predicate SameUse(a: Handle, b: Handle) {
    a.sessionId == b.sessionId && a.actorId == b.actorId
    && a.secretId == b.secretId && a.secretVersion == b.secretVersion
  }

  function OfSession(handles: Handles, sessionId: string): set<string> {
    set token | token in handles && handles[token].sessionId == sessionId
  }

  predicate SessionIdentified(ctx: Context) {
    ctx.sessionId != "" && ctx.sessionId != "default"
  }

  function SecretGrant(id: string): string {
    "secrets.use:" + id
  }

  function DestinationGrant(id: string): string {
    "egress.destination:" + id
  }

  /** Why a handle for `secretId` may not be issued under the snapshot, if so. */
  function IssueRefused(snapshot: RuntimeState, ctx: Context, secretId: string): Option<EgressError> {
    if !SessionIdentified(ctx) then Some(Denied("egress requires an explicit session identity"))
    else if !snapshot.policy.enabled then Some(Disabled)
    else if SecretGrant(secretId) !in ctx.grants then Some(Denied("missing exact grant"))
    else if secretId !in snapshot.policy.secrets then Some(SecretUnavailable)
    else if Target(secretId, snapshot.policy.secrets[secretId].version) in snapshot.revokedSecrets
    then Some(Revoked("secret"))
    else None
  }

  function NewHandle(snapshot: RuntimeState, ctx: Context, secretId: string, now: nat): Handle
    requires secretId in snapshot.policy.secrets
  {
    Handle(ctx.sessionId, ctx.actorId, secretId, snapshot.policy.secrets[secretId].version, now + HANDLE_TTL_MS)
  }

  function Issued(handles: Handles, handle: Handle, token: string, now: nat): Handles {
    var live := Live(handles, now);
    if exists t :: t in live && SameUse(live[t], handle) then live
    else if |OfSession(live, handle.sessionId)| >= MAX_HANDLES_PER_SESSION then live
    else if |live| >= MAX_HANDLES_TOTAL then live
    else live[token := handle]
  }

  /** Some live handle serves, or there is room under both limits. */
  predicate RoomFor(live: Handles, handle: Handle) {
    || (exists t :: t in live && SameUse(live[t], handle))
    || (|OfSession(live, handle.sessionId)| < MAX_HANDLES_PER_SESSION && |live| < MAX_HANDLES_TOTAL)
  }

  /**
   A handle is given exactly to an identified session with the grant, for an unrevoked secret of an enabled
   policy, while there is room.
   */
  predicate MayIssue(handles: Handles, snapshot: RuntimeState, ctx: Context, secretId: string, now: nat) {
    && ctx.sessionId !in ["", "default"] && snapshot.policy.enabled && "secrets.use:" + secretId in ctx.grants
    && secretId in snapshot.policy.secrets
    && Target(secretId, snapshot.policy.secrets[secretId].version) !in snapshot.revokedSecrets
    && RoomFor(Live(handles, now), NewHandle(snapshot, ctx, secretId, now))
  }

  /** The error otherwise. */
  function IssueError(handles: Handles, snapshot: RuntimeState, ctx: Context, secretId: string, now: nat): EgressError {
    if IssueRefused(snapshot, ctx, secretId).Some? then IssueRefused(snapshot, ctx, secretId).value
    else if |OfSession(Live(handles, now), ctx.sessionId)| >= MAX_HANDLES_PER_SESSION
    then Budget("per-session secret handle cap")
    else Budget("process secret handle cap")
  }

  datatype Op =
    | Replace(policy: Policy, now: nat)
    | RevokeDestination(destinationId: string)
    | RevokeSecret(secretId: string)
    | Issue(snapshot: RuntimeState, ctx: Context, wanted: string, token: string, at: nat)
    | Sweep(at: nat)
    | ClearSession(sessionId: string)

  function Apply(b: Broker, op: Op): Broker {
    match op
    case Replace(p, now) => Broker(Replaced(b.state, p), Current(Live(b.handles, now), p))
    case RevokeDestination(id) => b.(state := DestinationRevoked(b.state, id))
    case RevokeSecret(id) => b.(state := SecretRevoked(b.state, id))
    case Issue(snapshot, ctx, wanted, token, now) =>
      if IssueRefused(snapshot, ctx, wanted).Some? then b
      else b.(handles := Issued(b.handles, NewHandle(snapshot, ctx, wanted, now), token, now))
    case Sweep(now) => b.(handles := Live(b.handles, now))
    case ClearSession(id) =>
      b.(handles := map t | t in b.handles && b.handles[t].sessionId != id :: b.handles[t])
  }

  function Run(b: Broker, ops: seq<Op>): Broker
    decreases |ops|
  {
    if ops == [] then b else Apply(Run(b, ops[..|ops| - 1]), ops[|ops| - 1])
  }

  class Runtime {
    var state: RuntimeState
    var handles: Handles

    constructor (policy: Policy)
      ensures state == RuntimeState(policy, {}, {}, 1) && handles == map[]
    {
      state := RuntimeState(policy, {}, {}, 1);
      handles := map[];
    }

    /** A failed replacement changes nothing; `p` is the validated form of `c`. */
    method ReplacePolicy(c: Config, now: nat) returns (r: Result<(), EgressError>, ghost p: Policy)
      modifies this
      ensures r.Ok? <==> Acceptable(c)
      ensures r.Ok? ==> WellFormed(p) && Holds(p.destinations, c.destinations) && HoldsSecrets(p.secrets, c.secrets)
      ensures r.Ok? ==> Broker(state, handles) == Apply(Broker(old(state), old(handles)), Replace(p, now))
      ensures r.Err? ==> state == old(state) && handles == old(handles)
    {
      var validated := ValidateConfig(c);
      if validated.Err? {
        r, p := Err(validated.error), state.policy;
        return;
      }
      var policy := validated.value;
      state := state.(
        revokedDestinations := (set t | t in state.revokedDestinations && KeepsDestination(policy, t)),
        revokedSecrets := (set t | t in state.revokedSecrets && KeepsSecret(policy, t)));
      state := state.(policy := policy, generation := SatAdd(state.generation, 1));
      handles := Current(Live(handles, now), policy);
      r, p := Ok(()), policy;
    }

    method RevokeOneDestination(id: string) returns (r: Result<(), EgressError>)
      modifies this`state
      ensures r.Ok? <==> id in old(state).policy.destinations
      ensures Broker(state, handles) == Apply(Broker(old(state), handles), RevokeDestination(id))
      ensures r.Ok? ==> Target(id, old(state).policy.destinations[id].version) in state.revokedDestinations
    {
      if id !in state.policy.destinations {
        return Err(InvalidRequest("unknown destination"));
      }
      var target := Target(id, state.policy.destinations[id].version);
      state := state.(revokedDestinations := state.revokedDestinations + {target});
      return Ok(());
    }

    method RevokeOneSecret(id: string) returns (r: Result<(), EgressError>)
      modifies this`state
      ensures r.Ok? <==> id in old(state).policy.secrets
      ensures Broker(state, handles) == Apply(Broker(old(state), handles), RevokeSecret(id))
      ensures r.Ok? ==> Target(id, old(state).policy.secrets[id].version) in state.revokedSecrets
    {
      if id !in state.policy.secrets {
        return Err(InvalidRequest("unknown secret"));
      }
      var target := Target(id, state.policy.secrets[id].version);
      state := state.(revokedSecrets := state.revokedSecrets + {target});
      return Ok(());
    }

    /** `drawn` is the random token drawn in case none is live for this session, actor and secret. */
    method IssueSecretHandle(snapshot: RuntimeState, ctx: Context, secretId: string, drawn: string, now: nat)
      returns (r: Result<string, EgressError>)
      modifies this`handles
      ensures Broker(state, handles)
              == Apply(Broker(old(state), old(handles)), Issue(snapshot, ctx, secretId, drawn, now))
      ensures r.Ok? ==> && secretId in snapshot.policy.secrets
                        && r.value in handles
                        && handles[r.value].sessionId == ctx.sessionId && handles[r.value].actorId == ctx.actorId
                        && handles[r.value].secretId == secretId
                        && handles[r.value].secretVersion == snapshot.policy.secrets[secretId].version
                        && handles[r.value].expiresAt > now
      ensures r.Ok? <==> MayIssue(old(handles), snapshot, ctx, secretId, now)
      ensures r.Err? ==> r.error == IssueError(old(handles), snapshot, ctx, secretId, now)
    {
      var refused := IssueRefused(snapshot, ctx, secretId);
      if refused.Some? {
        return Err(refused.value);
      }
      handles := Live(handles, now);
      var handle := NewHandle(snapshot, ctx, secretId, now);
      if exists t :: t in handles && SameUse(handles[t], handle) {
        var token :| token in handles && SameUse(handles[token], handle);
        return Ok(token);
      }
      if |OfSession(handles, ctx.sessionId)| >= MAX_HANDLES_PER_SESSION {
        return Err(Budget("per-session secret handle cap"));
      }
      if |handles| >= MAX_HANDLES_TOTAL {
        return Err(Budget("process secret handle cap"));
      }
      handles := handles[drawn := handle];
      return Ok(drawn);
    }

    method ClearHandles(sessionId: string)
      modifies this`handles
      ensures Broker(state, handles) == Apply(Broker(old(state), old(handles)), ClearSession(sessionId))
    {
      handles := map t | t in handles && handles[t].sessionId != sessionId :: handles[t];
    }
  }

  // ---------- Every run: handles ----------

  /** No two handles serve the same use. */
  ghost predicate OnePerUse(handles: Handles) {
    forall a, b :: a in handles && b in handles && SameUse(handles[a], handles[b]) ==> a == b
  }

  /** One live handle per use, at most 64 per session, at most 4096 in all. */
  ghost predicate HandlesBounded(handles: Handles) {
    && OnePerUse(handles)
    && (forall s :: |OfSession(handles, s)| <= 64)
    && |handles| <= 4096
  }

  lemma {:induction false} FewerHandlesBounded(handles: Handles, fewer: Handles)
    requires HandlesBounded(handles)
    requires forall t :: t in fewer ==> t in handles && fewer[t] == handles[t]
    ensures HandlesBounded(fewer)
  {
    assert fewer.Keys <= handles.Keys;
    SubsetCount(fewer.Keys, handles.Keys);
    forall s ensures |OfSession(fewer, s)| <= MAX_HANDLES_PER_SESSION {
      assert OfSession(fewer, s) <= OfSession(handles, s);
      SubsetCount(OfSession(fewer, s), OfSession(handles, s));
    }
  }

  lemma {:induction false} AddedHandleOfSession(live: Handles, token: string, handle: Handle, session: string)
    ensures |OfSession(live[token := handle], session)|
            <= |OfSession(live, session)| + if session == handle.sessionId then 1 else 0
  {
    var added := if session == handle.sessionId then {token} else {};
    assert OfSession(live[token := handle], session) <= OfSession(live, session) + added;
    SubsetCount(OfSession(live[token := handle], session), OfSession(live, session) + added);
  }

  lemma {:induction false} AddedHandleAlone(live: Handles, token: string, handle: Handle)
    requires OnePerUse(live) && forall t :: t in live ==> !SameUse(live[t], handle)
    ensures OnePerUse(live[token := handle])
  {
  }

  lemma {:induction false} AddedHandleBounded(live: Handles, token: string, handle: Handle)
    requires HandlesBounded(live)
    requires forall t :: t in live ==> !SameUse(live[t], handle)
    requires |OfSession(live, handle.sessionId)| < MAX_HANDLES_PER_SESSION && |live| < MAX_HANDLES_TOTAL
    ensures HandlesBounded(live[token := handle])
  {
    var more := live[token := handle];
    assert |more| <= |live| + 1 by {
      assert more.Keys == live.Keys + {token};
    }
    forall s ensures |OfSession(more, s)| <= MAX_HANDLES_PER_SESSION {
      AddedHandleOfSession(live, token, handle, s);
    }
    AddedHandleAlone(live, token, handle);
  }

  lemma {:induction false} StepHandlesBounded(b: Broker, op: Op)
    requires HandlesBounded(b.handles)
    ensures HandlesBounded(Apply(b, op).handles)
  {
    match op
    case Replace(p, now) => FewerHandlesBounded(b.handles, Apply(b, op).handles);
    case RevokeDestination(_) =>
    case RevokeSecret(_) =>
    case Issue(snapshot, ctx, wanted, token, now) =>
      if IssueRefused(snapshot, ctx, wanted).None? {
        var live, handle := Live(b.handles, now), NewHandle(snapshot, ctx, wanted, now);
        FewerHandlesBounded(b.handles, live);
        if Apply(b, op).handles != live {
          AddedHandleBounded(live, token, handle);
        }
      }
    case Sweep(_) => FewerHandlesBounded(b.handles, Apply(b, op).handles);
    case ClearSession(_) => FewerHandlesBounded(b.handles, Apply(b, op).handles);
  }

  /** In every broker state of every run the handle map is bounded and free of duplicates. */
  lemma {:induction false} HandlesStayBounded(b: Broker, ops: seq<Op>)
    requires b.handles == map[]
    ensures HandlesBounded(Run(b, ops).handles)
    decreases |ops|
  {
    if ops == [] {
      assert forall s :: OfSession(b.handles, s) == {};
    } else {
      HandlesStayBounded(b, ops[..|ops| - 1]);
      StepHandlesBounded(Run(b, ops[..|ops| - 1]), ops[|ops| - 1]);
    }
  }

  /** A replacement leaves exactly the handles that are live and whose secret the new policy keeps. */
  lemma {:induction false} StaleHandlesGo(b: Broker, p: Policy, now: nat, token: string)
    ensures token in Apply(b, Replace(p, now)).handles <==>
            && token in b.handles && now < b.handles[token].expiresAt
            && b.handles[token].secretId in p.secrets
            && p.secrets[b.handles[token].secretId].version == b.handles[token].secretVersion
    ensures token in Apply(b, Replace(p, now)).handles ==> Apply(b, Replace(p, now)).handles[token] == b.handles[token]
  {
  }

  // ---------- Every run: revocation ----------

  function AuthorizeDestination(ctx: Context, st: RuntimeState, d: Destination): Option<EgressError> {
    if DestinationGrant(d.id) !in ctx.grants then Some(Denied("missing exact grant"))
    else if Target(d.id, d.version) in st.revokedDestinations then Some(Revoked("destination"))
    else None
  }

  /** Every replacement of the run keeps the destination at this version. */
  predicate KeptThroughout(ops: seq<Op>, t: Target) {
    forall i :: 0 <= i < |ops| && ops[i].Replace? ==> KeepsDestination(ops[i].policy, t)
  }

  predicate SecretKeptThroughout(ops: seq<Op>, t: Target) {
    forall i :: 0 <= i < |ops| && ops[i].Replace? ==> KeepsSecret(ops[i].policy, t)
  }

  /** A revoked destination version stays refused through every run whose replacements keep it. */
  lemma {:induction false} RevokedDestinationStaysRefused(b: Broker, ops: seq<Op>, t: Target)
    requires t in b.state.revokedDestinations && KeptThroughout(ops, t)
    ensures t in Run(b, ops).state.revokedDestinations
    ensures forall ctx: Context, d: Destination :: d.id == t.id && d.version == t.version ==>
              AuthorizeDestination(ctx, Run(b, ops).state, d).Some?
    decreases |ops|
  {
    if ops != [] {
      RevokedDestinationStaysRefused(b, ops[..|ops| - 1], t);
    }
  }

  /** The same for a secret version: it is refused to every caller that takes its snapshot after such a run. */
  lemma {:induction false} RevokedSecretStaysRefused(b: Broker, ops: seq<Op>, t: Target)
    requires t in b.state.revokedSecrets && SecretKeptThroughout(ops, t)
    ensures t in Run(b, ops).state.revokedSecrets
    ensures forall ctx: Context :: KeepsSecret(Run(b, ops).state.policy, t) ==>
              IssueRefused(Run(b, ops).state, ctx, t.id).Some?
    decreases |ops|
  {
    if ops != [] {
      RevokedSecretStaysRefused(b, ops[..|ops| - 1], t);
    }
  }

  /**
   A revocation outlasts a run, in which the target is not revoked again, exactly when every replacement of
   the run keeps the target's version.
   */
  lemma {:induction false} ReplacementLiftsIff(b: Broker, ops: seq<Op>, t: Target)
    ensures t in b.state.revokedDestinations && RevokeDestination(t.id) !in ops ==>
              (t in Run(b, ops).state.revokedDestinations <==> KeptThroughout(ops, t))
    ensures t in b.state.revokedSecrets && RevokeSecret(t.id) !in ops ==>
              (t in Run(b, ops).state.revokedSecrets <==> SecretKeptThroughout(ops, t))
    decreases |ops|
  {
    if ops != [] {
      ReplacementLiftsIff(b, ops[..|ops| - 1], t);
    }
  }

  /** The generation counts replacements until it saturates; nothing else moves policy or generation. */
  function Replacements(ops: seq<Op>): nat {
    if ops == [] then 0
    else Replacements(ops[..|ops| - 1]) + if ops[|ops| - 1].Replace? then 1 else 0
  }

  lemma {:induction false} GenerationCountsReplacements(b: Broker, ops: seq<Op>)
    ensures Run(b, ops).state.generation == Min(b.state.generation + Replacements(ops), U64_MAX)
    ensures Replacements(ops) == 0 ==> Run(b, ops).state.policy == b.state.policy
    decreases |ops|
  {
    if ops != [] {
      GenerationCountsReplacements(b, ops[..|ops| - 1]);
    }
  }
}
