/**
 Preparing a mutation: everything an approval binds, and the identity of the durable effect.

 A digest is modelled by the term it digests, so distinct inputs have distinct digests.
 */
module EgressPrepare {
  import opened Sums
  import opened Common
  import opened EgressErrors
  import opened EgressPolicy
  import opened EgressRuntime

  const MAX_HEADERS: nat := 32
  const MAX_HEADER_BYTES: nat := 16 * 1024

  const FORBIDDEN_CALLER_HEADERS: set<string> := {
    "authorization", "proxy-authorization", "cookie", "set-cookie", "host", "connection",
    "content-length", "transfer-encoding", "te", "trailer", "upgrade"}

  /** `parsed` is the result of parsing `url`. */
  datatype HttpRequest = HttpRequest(
    verb: string, url: string, parsed: Option<Url>, headers: map<string, string>,
    body: Option<string>, auth: Option<string>, timeoutMs: Option<u64>)

  datatype HttpResponse = HttpResponse(
    status: nat, body: string, contentType: Option<string>, destinationId: string,
    responseBytes: nat, redirects: nat, secretRedactions: nat)

  datatype Digest =
    | OfQuery(query: string)
    | OfBody(body: string)
    | OfHandle(token: string)
    | OfSession(session: string)
    | OfActor(actor: string)
    | OfTarget(destination: Destination, secret: Option<Secret>)
    | OfRequest(verb: string, url: string, headers: map<string, string>, bodyBytes: nat, bodyDigest: Digest,
                timeoutMs: Option<u64>, secretSnapshot: Option<(string, u64, Digest)>, target: Digest)
    | OfEffect(scope: string, sessionDigest: Digest, actorDigest: Digest,
               destinationId: string, destinationVersion: u64, targetDigest: Digest, requestDigest: Digest)
    | OfResult(status: nat, bodyDigest: Digest, contentType: Option<string>, answeredBy: string,
               responseBytes: nat, redirects: nat, secretRedactions: nat)
    | OfResponseBody(text: string)
    | OfStatus(httpStatus: nat)
    | OfError(code: string)

  datatype SecretSnapshot = SecretSnapshot(
    handleDigest: Digest, secretId: string, secretVersion: u64, expiresAt: nat)

  datatype Prepared = Prepared(
    state: RuntimeState, destination: Authorized,
    generation: u64, destinationId: string, destinationVersion: u64, canonicalUrl: string,
    targetDigest: Digest, requestDigest: Digest, queryDigest: Digest,
    requestBytes: nat, secret: Option<SecretSnapshot>)

  /** Equality of snapshots as the code decides it: neither state nor destination is compared. */
  predicate SamePrepared(a: Prepared, b: Prepared) {
    && a.generation == b.generation
    && a.destinationId == b.destinationId
    && a.destinationVersion == b.destinationVersion
    && a.canonicalUrl == b.canonicalUrl
    && a.targetDigest == b.targetDigest
    && a.requestDigest == b.requestDigest
    && a.queryDigest == b.queryDigest
    && a.requestBytes == b.requestBytes
    && a.secret == b.secret
  }

  // ---------- Headers ----------

  /** Bytes of all headers: name, value and four bytes of punctuation each. */
  ghost function HeaderBytes(h: map<string, string>): nat
    decreases |h|
  {
    if h == map[] then 0
    else var n := Pick(h); |n| + |h[n]| + 4 + HeaderBytes(h - {n})
  }

  lemma {:induction false} HeaderBytesTakesOut(h: map<string, string>, n: string)
    requires n in h
    ensures HeaderBytes(h) == |n| + |h[n]| + 4 + HeaderBytes(h - {n})
    decreases |h|
  {
    var m := Pick(h);
    if m != n {
      HeaderBytesTakesOut(h - {m}, n);
      HeaderBytesTakesOut(h - {n}, m);
      assert h - {m} - {n} == h - {n} - {m};
    }
  }

  predicate LowerDistinct(h: map<string, string>) {
    forall a, b :: a in h && b in h && Lower(a) == Lower(b) ==> a == b
  }

  /** `c` is `h` with its names in lower case. */
  predicate Canonical(h: map<string, string>, c: map<string, string>) {
    && LowerDistinct(h)
    && c.Keys == (set n | n in h :: Lower(n))
    && (forall n :: n in h ==> Lower(n) in c && c[Lower(n)] == h[n])
  }

  lemma {:induction false} CanonicalKeepsBytes(h: map<string, string>, c: map<string, string>)
    requires Canonical(h, c)
    ensures HeaderBytes(c) == HeaderBytes(h)
    decreases |h|
  {
    if h == map[] {
      assert c.Keys == {};
      assert c == map[];
    } else {
      var n := Pick(h);
      var h', c' := h - {n}, c - {Lower(n)};
      assert c'.Keys == (set m | m in h' :: Lower(m));
      CanonicalKeepsBytes(h', c');
      HeaderBytesTakesOut(h, n);
      HeaderBytesTakesOut(c, Lower(n));
    }
  }

  ghost function HeadersRefused(d: Destination, h: map<string, string>): Option<EgressError> {
    if |h| > MAX_HEADERS then Some(InvalidRequest("too many request headers"))
    else if exists n :: n in h && Lower(n) in FORBIDDEN_CALLER_HEADERS
    then Some(Denied("caller-supplied credential or hop-by-hop header is forbidden"))
    else if exists n :: n in h && Lower(n) !in d.allowedRequestHeaders
    then Some(Denied("caller-supplied header is not allowlisted"))
    else if exists n :: n in h && ('\r' in h[n] || '\n' in h[n])
    then Some(InvalidRequest("invalid request header value"))
    else if HeaderBytes(h) > MAX_HEADER_BYTES then Some(InvalidRequest("request headers exceed 16 KiB"))
    else None
  }

  /** Credentials, and what concerns one connection only. */
  predicate Credential(name: string) {
    || name == "authorization" || name == "proxy-authorization" || name == "cookie" || name == "set-cookie"
    || name == "host" || name == "connection" || name == "content-length" || name == "transfer-encoding"
    || name == "te" || name == "trailer" || name == "upgrade"
  }

  function HeaderSizes(h: map<string, string>): map<string, nat> {
    map n | n in h :: |n| + |h[n]| + 4
  }

  lemma {:induction false} HeaderBytesTotal(h: map<string, string>)
    ensures HeaderBytes(h) == Total(HeaderSizes(h))
    decreases |h|
  {
    if h != map[] {
      var n := Pick(h);
      HeaderBytesTotal(h - {n});
      TotalTakesOut(HeaderSizes(h), n);
      assert HeaderSizes(h) - {n} == HeaderSizes(h - {n});
    } else {
      assert HeaderSizes(h) == map[];
    }
  }

  /** Few and small, allowlisted, and without a credential or a line break. */
  ghost predicate HeadersAllowed(d: Destination, h: map<string, string>) {
    && |h| <= 32 && Total(HeaderSizes(h)) <= 16 * 1024
    && (forall n :: n in h ==>
          && Lower(n) in d.allowedRequestHeaders && !Credential(Lower(n))
          && '\r' !in h[n] && '\n' !in h[n])
  }

  lemma {:induction false} HeadersIff(d: Destination, h: map<string, string>)
    ensures HeadersRefused(d, h).None? <==> HeadersAllowed(d, h)
  {
    HeaderBytesTotal(h);
  }

  // ---------- The snapshot ----------

  function BodyOf(request: HttpRequest): string {
    if request.body.Some? then request.body.value else ""
  }

  /** Size of the request without the secret's value, for a given URL text. */
  ghost function RequestSize(request: HttpRequest, url: string): nat {
    |request.verb| + |url| + HeaderBytes(request.headers) + |BodyOf(request)|
  }

  /** Resolving a handle against a policy snapshot and the live handles. */
  function ResolveSecret(st: RuntimeState, handles: Handles, now: nat, ctx: Context, token: string, d: Destination)
    : Result<(SecretSnapshot, Secret), EgressError>
  {
    var live := Live(handles, now);
    if token !in live then Err(InvalidSecretHandle)
    else
      var h := live[token];
      if h.sessionId != ctx.sessionId || h.actorId != ctx.actorId then Err(InvalidSecretHandle)
      else if h.secretId !in st.policy.secrets || st.policy.secrets[h.secretId].version != h.secretVersion
      then Err(InvalidSecretHandle)
      else
        var s := st.policy.secrets[h.secretId];
        if Target(s.id, s.version) in st.revokedSecrets then Err(Revoked("secret"))
        else if SecretGrant(s.id) !in ctx.grants then Err(Denied("missing exact grant"))
        else if d.id !in s.destinations then Err(InvalidSecretHandle)
        else Ok((SecretSnapshot(OfHandle(token), s.id, s.version, h.expiresAt), s))
  }

  /** `p` is what preparing `request` yields under state `st`, with the handles as they were at `now`. */
  ghost predicate Prepares(
    st: RuntimeState, handles: Handles, now: nat, ctx: Context, request: HttpRequest, p: Prepared)
  {
    var verb := Upper(request.verb);
    && SessionIdentified(ctx) && verb != "GET"
    && Authorize(st.policy, request.url, request.parsed, verb) == Ok(p.destination)
    && AuthorizeDestination(ctx, st, p.destination.policy).None?
    && HeadersRefused(p.destination.policy, request.headers).None?
    && (exists canonical ::
          && Canonical(request.headers, canonical)
          && p.requestDigest == OfRequest(
               verb, p.canonicalUrl, canonical, |BodyOf(request)|, OfBody(BodyOf(request)), request.timeoutMs,
               if p.secret.None? then None
               else Some((p.secret.value.secretId, p.secret.value.secretVersion, p.secret.value.handleDigest)),
               p.targetDigest))
    && (match request.auth
        case None => p.secret == None && p.targetDigest == OfTarget(p.destination.policy, None)
        case Some(token) =>
          var resolved := ResolveSecret(st, handles, now, ctx, token, p.destination.policy);
          && resolved.Ok?
          && p.secret == Some(resolved.value.0)
          && p.targetDigest == OfTarget(p.destination.policy, Some(resolved.value.1)))
    && p.state == st && p.generation == st.generation
    && p.destinationId == p.destination.policy.id
    && p.destinationVersion == p.destination.policy.version
    && p.canonicalUrl == p.destination.url.text
    && p.queryDigest == OfQuery(if p.destination.url.query.Some? then p.destination.url.query.value else "")
    && p.requestBytes == RequestSize(request, p.canonicalUrl)
  }

  /** Sweeping removes exactly what has expired, and no handle resolves differently for it. */
  lemma {:induction false} SweepingChangesNothing(
    b: Broker, swept: nat, st: RuntimeState, now: nat, ctx: Context, token: string, d: Destination)
    requires swept <= now
    ensures var after := Apply(b, Sweep(swept)).handles;
            && (token in after <==> token in b.handles && swept < b.handles[token].expiresAt)
            && ResolveSecret(st, after, now, ctx, token, d) == ResolveSecret(st, b.handles, now, ctx, token, d)
  {
    assert Live(Live(b.handles, swept), now) == Live(b.handles, now);
  }

  /** The operation issued this handle under this token, to its own session and actor. */
  predicate IssuedBy(op: Op, token: string, h: Handle) {
    && op.Issue? && op.token == token && op.wanted == h.secretId
    && op.ctx.sessionId == h.sessionId && op.ctx.actorId == h.actorId
    && h.expiresAt == op.at + HANDLE_TTL_MS
    && SecretGrant(h.secretId) in op.ctx.grants
    && KeepsSecret(op.snapshot.policy, Target(h.secretId, h.secretVersion))
    && Target(h.secretId, h.secretVersion) !in op.snapshot.revokedSecrets
  }

  lemma {:induction false} StepIssues(b: Broker, op: Op, token: string)
    requires token in Apply(b, op).handles
    ensures var h := Apply(b, op).handles[token];
            (token in b.handles && b.handles[token] == h) || IssuedBy(op, token, h)
  {
  }

  /** Every handle was issued by the operator's log, to the session and actor it names. */
  lemma {:induction false} HandlesWereIssued(b: Broker, ops: seq<Op>, token: string) returns (i: nat)
    requires b.handles == map[] && token in Run(b, ops).handles
    ensures i < |ops| && IssuedBy(ops[i], token, Run(b, ops).handles[token])
    decreases |ops|
  {
    var n := |ops| - 1;
    StepIssues(Run(b, ops[..n]), ops[n], token);
    if IssuedBy(ops[n], token, Run(b, ops).handles[token]) {
      i := n;
    } else {
      i := HandlesWereIssued(b, ops[..n], token);
    }
  }

  /**
   A handle resolves only for the session and actor it was issued to, before it expires, with their grant for the
   secret, and to a destination of the secret's, which the policy holds at the version issued and unrevoked.
   */
  lemma {:induction false} ResolvesForItsOwner(
    b: Broker, ops: seq<Op>, st: RuntimeState, now: nat, ctx: Context, token: string, d: Destination) returns (i: nat)
    requires b.handles == map[] && WellFormed(st.policy)
    requires ResolveSecret(st, Run(b, ops).handles, now, ctx, token, d).Ok?
    ensures var (snapshot, secret) := ResolveSecret(st, Run(b, ops).handles, now, ctx, token, d).value;
            && i < |ops| && ops[i].Issue? && ops[i].token == token && ops[i].wanted == secret.id
            && ops[i].ctx.sessionId == ctx.sessionId && ops[i].ctx.actorId == ctx.actorId
            && now < ops[i].at + 30 * 60 * 1000
            && KeepsSecret(ops[i].snapshot.policy, Target(secret.id, secret.version))
            && "secrets.use:" + secret.id in ctx.grants && d.id in secret.destinations
            && secret.id in st.policy.secrets && st.policy.secrets[secret.id] == secret
            && Target(secret.id, secret.version) !in st.revokedSecrets
            && snapshot.secretId == secret.id && snapshot.secretVersion == secret.version
  {
    i := HandlesWereIssued(b, ops, token);
  }

  /**
   Once a secret version is revoked, no handle resolves to it and no mutation is prepared with it, under any
   state that runs whose replacements keep it lead to: neither a handle that was there before, nor one that a
   caller with an older snapshot still had issued.
   */
  lemma {:induction false} RevokedSecretNeverResolves(
    b: Broker, ops: seq<Op>, t: Target, handles: Handles, now: nat, ctx: Context)
    requires t in b.state.revokedSecrets && SecretKeptThroughout(ops, t)
    ensures forall token, d :: ResolveSecret(Run(b, ops).state, handles, now, ctx, token, d).Ok? ==>
              var s := ResolveSecret(Run(b, ops).state, handles, now, ctx, token, d).value.0;
              Target(s.secretId, s.secretVersion) != t
    ensures forall request, p :: Prepares(Run(b, ops).state, handles, now, ctx, request, p) && p.secret.Some? ==>
              Target(p.secret.value.secretId, p.secret.value.secretVersion) != t
  {
    RevokedSecretStaysRefused(b, ops, t);
  }

  /** What was prepared was for an identified session with the grant, and its headers were allowed. */
  lemma {:induction false} PreparedAllows(
    st: RuntimeState, handles: Handles, now: nat, ctx: Context, request: HttpRequest, p: Prepared)
    requires Prepares(st, handles, now, ctx, request, p)
    ensures ctx.sessionId !in ["", "default"] && "egress.destination:" + p.destination.policy.id in ctx.grants
    ensures HeadersAllowed(p.destination.policy, request.headers)
    ensures p.canonicalUrl == p.destination.url.text
  {
    HeadersIff(p.destination.policy, request.headers);
  }

  // ---------- The effect ----------

  datatype Intent = Intent(
    effectId: Digest, sessionId: string, effectScope: string, sessionDigest: Digest, actorDigest: Digest,
    destinationId: string, destinationVersion: u64, targetDigest: Digest, requestDigest: Digest, requestBytes: nat)

  function ActorName(actorId: Option<string>): string {
    if actorId.Some? then actorId.value else "root"
  }

  function IntentFor(ctx: Context, p: Prepared): Intent
    requires ctx.effectScope.Some?
  {
    var session, actor := OfSession(ctx.sessionId), OfActor(ActorName(ctx.actorId));
    Intent(
      OfEffect(ctx.effectScope.value, session, actor, p.destinationId, p.destinationVersion,
               p.targetDigest, p.requestDigest),
      ctx.sessionId, ctx.effectScope.value, session, actor,
      p.destinationId, p.destinationVersion, p.targetDigest, p.requestDigest, p.requestBytes)
  }

  /** An intent that some caller can have built. */
  ghost predicate Genuine(intent: Intent) {
    exists st, handles, now, ctx, request, p ::
      && Prepares(st, handles, now, ctx, request, p)
      && ctx.effectScope.Some?
      && intent == IntentFor(ctx, p)
  }

  lemma {:induction false} RequestDigestFixesBytes(
    st: RuntimeState, handles: Handles, now: nat, ctx: Context, request: HttpRequest, p: Prepared,
    st': RuntimeState, handles': Handles, now': nat, ctx': Context, request': HttpRequest, p': Prepared)
    requires Prepares(st, handles, now, ctx, request, p)
    requires Prepares(st', handles', now', ctx', request', p')
    requires p.requestDigest == p'.requestDigest
    ensures p.requestBytes == p'.requestBytes
  {
    var c := p.requestDigest.headers;
    assert Canonical(request.headers, c) && Canonical(request'.headers, c);
    CanonicalKeepsBytes(request.headers, c);
    CanonicalKeepsBytes(request'.headers, c);
    assert |request.verb| == |Upper(request.verb)| && |request'.verb| == |Upper(request'.verb)|;
  }

  /** Every header of `h` is one of `h'`, whatever the case of its name. */
  predicate Among(h: map<string, string>, h': map<string, string>) {
    forall n :: n in h ==> exists m :: m in h' && SameIgnoringCase(n, m) && h[n] == h'[m]
  }

  /** Every entry of `c` is one of `c'`. */
  predicate Within(c: map<string, string>, c': map<string, string>) {
    forall k :: k in c ==> k in c' && c[k] == c'[k]
  }

  lemma {:induction false} WithinBoth(c: map<string, string>, c': map<string, string>)
    ensures c == c' <==> Within(c, c') && Within(c', c)
  {
    if Within(c, c') && Within(c', c) {
      assert c.Keys == c'.Keys;
    }
  }

  lemma {:induction false} AmongIff(
    h: map<string, string>, c: map<string, string>, h': map<string, string>, c': map<string, string>)
    requires Canonical(h, c) && Canonical(h', c')
    ensures Within(c, c') <==> Among(h, h')
  {
    if Within(c, c') {
      forall n | n in h
        ensures exists m :: m in h' && SameIgnoringCase(n, m) && h[n] == h'[m]
      {
        assert Lower(n) in c;
        var m :| m in h' && Lower(m) == Lower(n);
        LowerIff(n, m);
      }
    }
    if Among(h, h') {
      forall k | k in c
        ensures k in c' && c[k] == c'[k]
      {
        var n :| n in h && Lower(n) == k;
        var m :| m in h' && SameIgnoringCase(n, m) && h[n] == h'[m];
        LowerIff(n, m);
      }
    }
  }

  /** Headers in lower case are the same exactly when the headers are, whatever the case of their names. */
  lemma {:induction false} CanonicalIff(
    h: map<string, string>, c: map<string, string>, h': map<string, string>, c': map<string, string>)
    requires Canonical(h, c) && Canonical(h', c')
    ensures c == c' <==> Among(h, h') && Among(h', h)
  {
    AmongIff(h, c, h', c');
    AmongIff(h', c', h, c);
    WithinBoth(c, c');
  }

  /** No actor and the actor `root` are one actor; any others differ. */
  predicate SameActor(a: Option<string>, b: Option<string>) {
    a == b || (a in [None, Some("root")] && b in [None, Some("root")])
  }

  /** No body and an empty one are one body. */
  predicate SameBody(a: Option<string>, b: Option<string>) {
    a == b || (a in [None, Some("")] && b in [None, Some("")])
  }

  lemma {:induction false} NamesIff(a: Option<string>, b: Option<string>, request: HttpRequest, request': HttpRequest)
    ensures ActorName(a) == ActorName(b) <==> SameActor(a, b)
    ensures BodyOf(request) == BodyOf(request') <==> SameBody(request.body, request'.body)
  {
  }

  /** The secret entry that the request was prepared with. */
  function SecretOf(p: Prepared): Option<Secret>
    requires p.secret.Some? ==> p.secret.value.secretId in p.state.policy.secrets
  {
    if p.secret.None? then None else Some(p.state.policy.secrets[p.secret.value.secretId])
  }

  /** What was prepared resolved its own token, to an entry of its own policy. */
  lemma {:induction false} PreparedSecret(
    st: RuntimeState, handles: Handles, now: nat, ctx: Context, request: HttpRequest, p: Prepared)
    requires WellFormed(st.policy) && Prepares(st, handles, now, ctx, request, p)
    ensures p.secret.Some? <==> request.auth.Some?
    ensures p.secret.Some? ==>
              && p.secret.value.secretId in p.state.policy.secrets
              && p.secret.value.secretVersion == p.state.policy.secrets[p.secret.value.secretId].version
              && p.secret.value.secretId == p.state.policy.secrets[p.secret.value.secretId].id
              && p.secret.value.handleDigest == OfHandle(request.auth.value)
    ensures p.targetDigest == OfTarget(p.destination.policy, SecretOf(p))
  {
  }

  /** Two callers ask for the same thing: method, URL, headers, body, timeout, secret and destination entry. */
  predicate SameAsk(request: HttpRequest, p: Prepared, request': HttpRequest, p': Prepared)
    requires p.secret.Some? ==> p.secret.value.secretId in p.state.policy.secrets
    requires p'.secret.Some? ==> p'.secret.value.secretId in p'.state.policy.secrets
  {
    && SameIgnoringCase(request.verb, request'.verb) && p.destination.url.text == p'.destination.url.text
    && Among(request.headers, request'.headers) && Among(request'.headers, request.headers)
    && SameBody(request.body, request'.body)
    && request.timeoutMs == request'.timeoutMs && request.auth == request'.auth && SecretOf(p) == SecretOf(p')
    && p.destination.policy == p'.destination.policy
  }

  /** What the digest of a prepared request is of, with its headers in lower case. */
  predicate DigestOf(request: HttpRequest, p: Prepared, c: map<string, string>, secret: Option<Secret>) {
    && Canonical(request.headers, c) && (request.auth.Some? <==> secret.Some?)
    && p.requestDigest == OfRequest(
         Upper(request.verb), p.destination.url.text, c, |BodyOf(request)|, OfBody(BodyOf(request)),
         request.timeoutMs,
         if secret.None? then None
         else Some((secret.value.id, secret.value.version, OfHandle(request.auth.value))),
         OfTarget(p.destination.policy, secret))
  }

  lemma {:induction false} PreparedDigest(
    st: RuntimeState, handles: Handles, now: nat, ctx: Context, request: HttpRequest, p: Prepared)
    returns (c: map<string, string>)
    requires WellFormed(st.policy) && Prepares(st, handles, now, ctx, request, p)
    ensures p.secret.Some? ==> p.secret.value.secretId in p.state.policy.secrets
    ensures DigestOf(request, p, c, SecretOf(p))
    ensures p.targetDigest == OfTarget(p.destination.policy, SecretOf(p))
    ensures p.destinationId == p.destination.policy.id && p.destinationVersion == p.destination.policy.version
  {
    PreparedSecret(st, handles, now, ctx, request, p);
    c := p.requestDigest.headers;
  }

  lemma {:induction false} DigestIff(
    request: HttpRequest, p: Prepared, c: map<string, string>,
    request': HttpRequest, p': Prepared, c': map<string, string>)
    requires p.secret.Some? ==> p.secret.value.secretId in p.state.policy.secrets
    requires p'.secret.Some? ==> p'.secret.value.secretId in p'.state.policy.secrets
    requires DigestOf(request, p, c, SecretOf(p)) && DigestOf(request', p', c', SecretOf(p'))
    ensures p.requestDigest == p'.requestDigest <==> SameAsk(request, p, request', p')
  {
    CanonicalIff(request.headers, c, request'.headers, c');
    NamesIff(None, None, request, request');
    UpperIff(request.verb, request'.verb);
  }

  /**
   Two callers contend for one effect exactly when they have the same scope, session and actor and ask for the
   same thing.
   */
  lemma {:induction false} SameEffectIff(
    st: RuntimeState, handles: Handles, now: nat, ctx: Context, request: HttpRequest, p: Prepared,
    st': RuntimeState, handles': Handles, now': nat, ctx': Context, request': HttpRequest, p': Prepared)
    requires WellFormed(st.policy) && Prepares(st, handles, now, ctx, request, p) && ctx.effectScope.Some?
    requires WellFormed(st'.policy) && Prepares(st', handles', now', ctx', request', p') && ctx'.effectScope.Some?
    ensures p.secret.Some? ==> p.secret.value.secretId in p.state.policy.secrets
    ensures p'.secret.Some? ==> p'.secret.value.secretId in p'.state.policy.secrets
    ensures IntentFor(ctx, p).effectId == IntentFor(ctx', p').effectId <==>
            && ctx.effectScope == ctx'.effectScope && ctx.sessionId == ctx'.sessionId
            && SameActor(ctx.actorId, ctx'.actorId) && SameAsk(request, p, request', p')
  {
    var c := PreparedDigest(st, handles, now, ctx, request, p);
    var c' := PreparedDigest(st', handles', now', ctx', request', p');
    DigestIff(request, p, c, request', p', c');
    NamesIff(ctx.actorId, ctx'.actorId, request, request');
  }

  /** The effect id fixes the whole intent, even the byte count and session that it does not contain. */
  lemma {:induction false} EffectIdFixesIntent(a: Intent, b: Intent)
    requires Genuine(a) && Genuine(b) && a.effectId == b.effectId
    ensures a == b
  {
    var st, handles, now, ctx, request, p :|
      Prepares(st, handles, now, ctx, request, p) && ctx.effectScope.Some? && a == IntentFor(ctx, p);
    var st', handles', now', ctx', request', p' :|
      Prepares(st', handles', now', ctx', request', p') && ctx'.effectScope.Some? && b == IntentFor(ctx', p');
    RequestDigestFixesBytes(st, handles, now, ctx, request, p, st', handles', now', ctx', request', p');
  }

  /** Two equal snapshots of one request name the same destination entry and secret entry. */
  lemma {:induction false} EqualSnapshotsSameTarget(
    st: RuntimeState, handles: Handles, now: nat, st': RuntimeState, handles': Handles, now': nat,
    ctx: Context, request: HttpRequest, before: Prepared, after: Prepared)
    requires Prepares(st, handles, now, ctx, request, before)
    requires Prepares(st', handles', now', ctx, request, after)
    requires SamePrepared(before, after)
    ensures before.destination.policy == after.destination.policy
    ensures before.secret.Some? ==>
              Target(after.secret.value.secretId, after.secret.value.secretVersion) !in st'.revokedSecrets
    ensures Target(after.destinationId, after.destinationVersion) !in st'.revokedDestinations
  {
  }
}
