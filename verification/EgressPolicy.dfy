/**
 Egress policy: destinations and secrets, their validation, and the choice of the destination that
 authorizes a URL and method. Text is modelled as its bytes, one `char` per byte. Spelling rules for
 identifiers, hosts, header names and prefixes are summed up in `wellSpelled`.
 */
module EgressPolicy {
  import opened Common
  import opened EgressErrors

  const MAX_URL_BYTES: nat := 8 * 1024
  const MAX_REDIRECTS: nat := 5
  const MAX_REQUEST_TIMEOUT_MS: nat := 120_000

  datatype SessionLimits = SessionLimits(
    maxRequests: u64, maxRequestBytes: u64, maxResponseBytes: u64, maxTimeMs: u64)

  datatype Destination = Destination(
    id: string, version: u64, wellSpelled: bool,
    scheme: string, host: string, port: nat,
    pathPrefixes: seq<string>, methods: set<string>,
    redirectTo: set<string>, maxRedirects: nat,
    requestTimeoutMs: u64, connectTimeoutMs: u64,
    maxRequestBytes: u64, maxResponseBytes: u64,
    maxRequestsPerSession: u64, maxRequestBytesPerSession: u64,
    maxResponseBytesPerSession: u64, maxTimeMsPerSession: u64,
    allowedRequestHeaders: set<string>)

  datatype Secret = Secret(id: string, version: u64, wellSpelled: bool, env: string, destinations: set<string>)

  datatype Config = Config(
    enabled: bool, sessionLimits: SessionLimits, destinations: seq<Destination>, secrets: seq<Secret>)

  /** `order` lists the destination ids ascending: the order in which the map is iterated. */
  datatype Policy = Policy(
    enabled: bool, sessionLimits: SessionLimits,
    destinations: map<string, Destination>, order: seq<string>, secrets: map<string, Secret>)

  // ---------- Text ----------

  function LowerChar(c: char): char {
    if 'A' <= c <= 'Z' then (c as int + 32) as char else c
  }

  function UpperChar(c: char): char {
    if 'a' <= c <= 'z' then (c as int - 32) as char else c
  }

  function Lower(s: string): (r: string)
    ensures |r| == |s|
  {
    seq(|s|, i requires 0 <= i < |s| => LowerChar(s[i]))
  }

  function Upper(s: string): (r: string)
    ensures |r| == |s|
  {
    seq(|s|, i requires 0 <= i < |s| => UpperChar(s[i]))
  }

  lemma {:induction false} UpperTwice(s: string)
    ensures Upper(Upper(s)) == Upper(s)
  {
    assert forall i :: 0 <= i < |s| ==> Upper(Upper(s))[i] == Upper(s)[i];
  }

  /** The same letter, in whatever case, or the same character. */
  predicate SameLetter(a: char, b: char) {
    || a == b
    || ('a' <= a <= 'z' && 'A' <= b <= 'Z' && a as int - 'a' as int == b as int - 'A' as int)
    || ('A' <= a <= 'Z' && 'a' <= b <= 'z' && a as int - 'A' as int == b as int - 'a' as int)
  }

  predicate SameIgnoringCase(a: string, b: string) {
    |a| == |b| && forall i :: 0 <= i < |a| ==> SameLetter(a[i], b[i])
  }

  lemma {:induction false} UpperIff(a: string, b: string)
    ensures Upper(a) == Upper(b) <==> SameIgnoringCase(a, b)
  {
    if Upper(a) == Upper(b) {
      forall i | 0 <= i < |a|
        ensures SameLetter(a[i], b[i])
      {
        assert Upper(a)[i] == Upper(b)[i];
      }
    }
  }

  lemma {:induction false} LowerIff(a: string, b: string)
    ensures Lower(a) == Lower(b) <==> SameIgnoringCase(a, b)
  {
    if Lower(a) == Lower(b) {
      forall i | 0 <= i < |a|
        ensures SameLetter(a[i], b[i])
      {
        assert Lower(a)[i] == Lower(b)[i];
      }
    }
  }

  function Insert(order: seq<string>, id: string): seq<string> {
    if order == [] || Precedes(id, order[0]) then [id] + order
    else [order[0]] + Insert(order[1..], id)
  }

  predicate Ascending(order: seq<string>) {
    order != [] ==> (forall id :: id in order[1..] ==> Precedes(order[0], id)) && Ascending(order[1..])
  }

  // ---------- Validation ----------

  predicate LimitsPositive(l: SessionLimits) {
    l.maxRequests != 0 && l.maxRequestBytes != 0 && l.maxResponseBytes != 0 && l.maxTimeMs != 0
  }

  predicate DestinationLimitsValid(d: Destination) {
    && 0 < d.requestTimeoutMs <= MAX_REQUEST_TIMEOUT_MS
    && 0 < d.connectTimeoutMs <= d.requestTimeoutMs
    && d.maxRequestBytes != 0 && d.maxResponseBytes != 0
    && d.maxRequestsPerSession != 0 && d.maxRequestBytesPerSession != 0
    && d.maxResponseBytesPerSession != 0 && d.maxTimeMsPerSession != 0
  }

  predicate DestinationValid(d: Destination) {
    && d.wellSpelled && d.version != 0 && d.port != 0
    && d.pathPrefixes != [] && d.methods != {}
    && d.maxRedirects <= MAX_REDIRECTS
    && DestinationLimitsValid(d)
  }

  function Normalized(d: Destination): Destination {
    d.(scheme := Lower(d.scheme), host := Lower(d.host),
       methods := set m | m in d.methods :: Upper(m),
       allowedRequestHeaders := set h | h in d.allowedRequestHeaders :: Lower(h))
  }

  predicate DistinctIds(ds: seq<Destination>) {
    forall i, j :: 0 <= i < j < |ds| ==> ds[i].id != ds[j].id
  }

  predicate DistinctSecretIds(ss: seq<Secret>) {
    forall i, j :: 0 <= i < j < |ss| ==> ss[i].id != ss[j].id
  }

  function Ids(ds: seq<Destination>): set<string> {
    set i | 0 <= i < |ds| :: ds[i].id
  }

  function SecretIds(ss: seq<Secret>): set<string> {
    set i | 0 <= i < |ss| :: ss[i].id
  }

  predicate SecretValid(s: Secret, ids: set<string>) {
    s.wellSpelled && s.version != 0 && s.destinations != {} && s.destinations <= ids
  }

  /** What a configuration must satisfy, said of the configuration as a whole. */
  predicate Acceptable(c: Config) {
    && LimitsPositive(c.sessionLimits)
    && (forall i :: 0 <= i < |c.destinations| ==> DestinationValid(c.destinations[i]))
    && DistinctIds(c.destinations)
    && (forall i :: 0 <= i < |c.destinations| ==> c.destinations[i].redirectTo <= Ids(c.destinations))
    && (forall i :: 0 <= i < |c.secrets| ==> SecretValid(c.secrets[i], Ids(c.destinations)))
    && DistinctSecretIds(c.secrets)
    && (c.enabled ==> c.destinations != [])
  }

  /** The redirect graph of an active policy is closed and every entry is filed under its id. */
  predicate WellFormed(p: Policy) {
    && (forall id :: id in p.destinations ==>
          && p.destinations[id].id == id
          && p.destinations[id].maxRedirects <= MAX_REDIRECTS
          && DestinationLimitsValid(p.destinations[id])
          && p.destinations[id].redirectTo <= p.destinations.Keys)
    && (forall id :: id in p.secrets ==>
          && p.secrets[id].id == id
          && p.secrets[id].destinations <= p.destinations.Keys)
    && (forall id :: id in p.order ==> id in p.destinations)
    && (forall id :: id in p.destinations ==> id in p.order)
    && Ascending(p.order)
  }

  lemma {:induction false} InsertAdds(order: seq<string>, id: string)
    ensures forall x :: x in Insert(order, id) <==> x == id || x in order
  {
    if order != [] && !Precedes(id, order[0]) {
      InsertAdds(order[1..], id);
      assert order == [order[0]] + order[1..];
    }
  }

  lemma {:induction false} InsertAscending(order: seq<string>, id: string)
    requires Ascending(order) && id !in order
    ensures Ascending(Insert(order, id))
  {
    if order != [] && Precedes(id, order[0]) {
      forall x | x in order ensures Precedes(id, x) {
        if x != order[0] {
          PrecedesTransitive(id, order[0], x);
        }
      }
    } else if order != [] {
      PrecedesTotal(id, order[0]);
      InsertAscending(order[1..], id);
      InsertAdds(order[1..], id);
    }
  }

  /** `m` holds exactly the normalized `ds`, each under its id. */
  predicate Holds(m: map<string, Destination>, ds: seq<Destination>) {
    && m.Keys == Ids(ds)
    && (forall i :: 0 <= i < |ds| ==> ds[i].id in m && m[ds[i].id] == Normalized(ds[i]))
  }

  predicate HoldsSecrets(m: map<string, Secret>, ss: seq<Secret>) {
    && m.Keys == SecretIds(ss)
    && (forall i :: 0 <= i < |ss| ==> ss[i].id in m && m[ss[i].id] == ss[i])
  }

  lemma {:induction false} HoldsGrows(m: map<string, Destination>, ds: seq<Destination>, d: Destination)
    requires Holds(m, ds) && DistinctIds(ds) && d.id !in m
    ensures Holds(m[d.id := Normalized(d)], ds + [d]) && DistinctIds(ds + [d])
  {
    assert forall i :: 0 <= i < |ds| ==> ds[i].id in Ids(ds);
    assert Ids(ds + [d]) == Ids(ds) + {d.id} by {
      assert forall i :: 0 <= i < |ds| ==> (ds + [d])[i] == ds[i];
      assert (ds + [d])[|ds|] == d;
    }
  }

  lemma {:induction false} HoldsSecretsGrows(m: map<string, Secret>, ss: seq<Secret>, s: Secret)
    requires HoldsSecrets(m, ss) && DistinctSecretIds(ss) && s.id !in m
    ensures HoldsSecrets(m[s.id := s], ss + [s]) && DistinctSecretIds(ss + [s])
  {
    assert forall i :: 0 <= i < |ss| ==> ss[i].id in SecretIds(ss);
    assert SecretIds(ss + [s]) == SecretIds(ss) + {s.id} by {
      assert forall i :: 0 <= i < |ss| ==> (ss + [s])[i] == ss[i];
      assert (ss + [s])[|ss|] == s;
    }
  }

  /** The checks on one destination, in turn. */
  method CheckDestination(d: Destination) returns (ok: bool)
    ensures ok <==> DestinationValid(d)
  {
    if !d.wellSpelled || d.version == 0 || d.port == 0 {
      return false;
    }
    if d.pathPrefixes == [] || d.methods == {} || d.maxRedirects > 5 {
      return false;
    }
    if d.requestTimeoutMs == 0 || d.requestTimeoutMs > 120_000 {
      return false;
    }
    if d.connectTimeoutMs == 0 || d.connectTimeoutMs > d.requestTimeoutMs {
      return false;
    }
    if d.maxRequestBytes == 0 || d.maxResponseBytes == 0 || d.maxRequestsPerSession == 0 {
      return false;
    }
    ok := d.maxRequestBytesPerSession != 0 && d.maxResponseBytesPerSession != 0 && d.maxTimeMsPerSession != 0;
  }

  method CheckSecret(secret: Secret, ids: set<string>) returns (ok: bool)
    ensures ok <==> SecretValid(secret, ids)
  {
    if !secret.wellSpelled || secret.version == 0 || secret.destinations == {} {
      return false;
    }
    ok := secret.destinations <= ids;
  }

  method CollectDestinations(ds: seq<Destination>)
    returns (r: Result<(map<string, Destination>, seq<string>), EgressError>)
    ensures r.Ok? <==> (forall i :: 0 <= i < |ds| ==> DestinationValid(ds[i])) && DistinctIds(ds)
    ensures r.Ok? ==>
              && Holds(r.value.0, ds)
              && (forall id :: id in r.value.1 <==> id in r.value.0) && Ascending(r.value.1)
    ensures r.Err? ==> r.error.InvalidConfig?
  {
    var m: map<string, Destination>, order: seq<string> := map[], [];
    for n := 0 to |ds|
      invariant forall i :: 0 <= i < n ==> DestinationValid(ds[i])
      invariant DistinctIds(ds[..n]) && Holds(m, ds[..n])
      invariant (forall id :: id in order <==> id in m) && Ascending(order)
    {
      var d := ds[n];
      var valid := CheckDestination(d);
      if !valid {
        return Err(InvalidConfig("destination is invalid"));
      }
      if d.id in m {
        assert d.id in Ids(ds[..n]);
        return Err(InvalidConfig("duplicate destination id"));
      }
      HoldsGrows(m, ds[..n], d);
      assert ds[..n + 1] == ds[..n] + [d];
      m := m[d.id := Normalized(d)];
      InsertAdds(order, d.id);
      InsertAscending(order, d.id);
      order := Insert(order, d.id);
    }
    assert ds[..|ds|] == ds;
    return Ok((m, order));
  }

  method CollectSecrets(ss: seq<Secret>, ids: set<string>) returns (r: Result<map<string, Secret>, EgressError>)
    ensures r.Ok? <==> (forall i :: 0 <= i < |ss| ==> SecretValid(ss[i], ids)) && DistinctSecretIds(ss)
    ensures r.Ok? ==> HoldsSecrets(r.value, ss)
    ensures r.Err? ==> r.error.InvalidConfig?
  {
    var m: map<string, Secret> := map[];
    for n := 0 to |ss|
      invariant forall i :: 0 <= i < n ==> SecretValid(ss[i], ids)
      invariant DistinctSecretIds(ss[..n]) && HoldsSecrets(m, ss[..n])
    {
      var s := ss[n];
      var valid := CheckSecret(s, ids);
      if !valid {
        return Err(InvalidConfig("secret is invalid"));
      }
      if s.id in m {
        assert s.id in SecretIds(ss[..n]);
        return Err(InvalidConfig("duplicate secret id"));
      }
      HoldsSecretsGrows(m, ss[..n], s);
      assert ss[..n + 1] == ss[..n] + [s];
      m := m[s.id := s];
    }
    assert ss[..|ss|] == ss;
    return Ok(m);
  }

  lemma {:induction false} DestinationsHaveIds(ds: seq<Destination>)
    ensures ds == [] <==> Ids(ds) == {}
  {
    if ds != [] {
      assert ds[0].id in Ids(ds);
    }
  }

  method CheckRedirects(ds: seq<Destination>, ids: set<string>) returns (ok: bool)
    ensures ok <==> forall i :: 0 <= i < |ds| ==> ds[i].redirectTo <= ids
  {
    for n := 0 to |ds|
      invariant forall i :: 0 <= i < n ==> ds[i].redirectTo <= ids
    {
      if !(ds[n].redirectTo <= ids) {
        return false;
      }
    }
    return true;
  }

  lemma {:induction false} HeldIsWellFormed(c: Config, p: Policy)
    requires Acceptable(c) && Holds(p.destinations, c.destinations) && HoldsSecrets(p.secrets, c.secrets)
    requires (forall id :: id in p.order <==> id in p.destinations) && Ascending(p.order)
    ensures WellFormed(p)
  {
    forall id | id in p.destinations
      ensures && p.destinations[id].id == id
              && p.destinations[id].maxRedirects <= MAX_REDIRECTS
              && DestinationLimitsValid(p.destinations[id])
              && p.destinations[id].redirectTo <= p.destinations.Keys
    {
      var i :| 0 <= i < |c.destinations| && c.destinations[i].id == id;
      assert p.destinations[id] == Normalized(c.destinations[i]) && DestinationValid(c.destinations[i]);
    }
    forall id | id in p.secrets
      ensures p.secrets[id].id == id && p.secrets[id].destinations <= p.destinations.Keys
    {
      var i :| 0 <= i < |c.secrets| && c.secrets[i].id == id;
      assert SecretValid(c.secrets[i], Ids(c.destinations));
    }
  }

  /** Validation accepts exactly the acceptable configurations and yields a well-formed policy. */
  method ValidateConfig(c: Config) returns (r: Result<Policy, EgressError>)
    ensures r.Ok? <==> Acceptable(c)
    ensures r.Ok? ==>
              && WellFormed(r.value)
              && r.value.enabled == c.enabled && r.value.sessionLimits == c.sessionLimits
              && Holds(r.value.destinations, c.destinations) && HoldsSecrets(r.value.secrets, c.secrets)
    ensures r.Err? ==> r.error.InvalidConfig?
  {
    if !LimitsPositive(c.sessionLimits) {
      return Err(InvalidConfig("session egress limits must be positive"));
    }
    var collected := CollectDestinations(c.destinations);
    if collected.Err? {
      return Err(collected.error);
    }
    var (destinations, order) := collected.value;
    var closed := CheckRedirects(c.destinations, destinations.Keys);
    if !closed {
      return Err(InvalidConfig("redirects to unknown destination"));
    }
    var secrets := CollectSecrets(c.secrets, destinations.Keys);
    if secrets.Err? {
      return Err(secrets.error);
    }
    DestinationsHaveIds(c.destinations);
    if c.enabled && destinations == map[] {
      return Err(InvalidConfig("enabled egress requires a destination"));
    }
    var p := Policy(c.enabled, c.sessionLimits, destinations, order, secrets.value);
    HeldIsWellFormed(c, p);
    return Ok(p);
  }

  // ---------- Authorization ----------

  /** A parsed absolute URL. `text` is its canonical form, `shapeAllowed` the checks on its other parts. */
  datatype Url = Url(
    scheme: string, host: string, port: Option<nat>, path: string, query: Option<string>,
    text: string, shapeAllowed: bool)

  datatype Authorized = Authorized(policy: Destination, url: Url)

  predicate PathPrefixMatches(prefix: string, path: string) {
    || prefix == "/"
    || prefix == path
    || (prefix < path && ((prefix != "" && prefix[|prefix| - 1] == '/') || path[|prefix|] == '/'))
  }

  /** The destination allows this URL and upper-case method. */
  predicate Allows(d: Destination, url: Url, verb: string) {
    && d.scheme == url.scheme
    && d.host == Lower(url.host)
    && url.port == Some(d.port)
    && verb in d.methods
    && exists i :: 0 <= i < |d.pathPrefixes| && PathPrefixMatches(d.pathPrefixes[i], url.path)
  }

  // ---------- What a prefix covers ----------

  /** The first slash, or the end. */
  function SlashAt(s: string): (k: nat)
    ensures k <= |s| && (k < |s| ==> s[k] == '/') && '/' !in s[..k]
  {
    if s == "" || s[0] == '/' then 0
    else
      var k := SlashAt(s[1..]);
      assert s[..k + 1] == [s[0]] + s[1..][..k];
      k + 1
  }

  /** The pieces between slashes. */
  function Segments(s: string): seq<string>
    decreases |s|
  {
    var k := SlashAt(s);
    if k == |s| then [s] else [s[..k]] + Segments(s[k + 1..])
  }

  predicate EndsInSlash(s: string) {
    s != "" && s[|s| - 1] == '/'
  }

  /** The path lies in the subtree of the prefix: it continues one that ends in a slash, else has its segments first. */
  predicate InSubtree(prefix: string, path: string) {
    if prefix == "/" then true
    else if EndsInSlash(prefix) then prefix <= path
    else Segments(prefix) <= Segments(path)
  }

  lemma {:induction false} SlashIs(s: string, k: nat)
    requires k <= |s| && '/' !in s[..k] && (k < |s| ==> s[k] == '/')
    ensures SlashAt(s) == k
  {
    assert forall i :: 0 <= i < k ==> s[..k][i] == s[i];
    assert forall i :: 0 <= i < SlashAt(s) ==> s[..SlashAt(s)][i] == s[i];
  }

  /** `path` is `prefix`, or goes on at a slash after it. */
  predicate Continues(prefix: string, path: string) {
    prefix == path || (prefix < path && path[|prefix|] == '/')
  }

  /** One segment covers exactly itself and what a slash sets off from it. */
  lemma {:induction false} OneSegment(segment: string, path: string)
    requires '/' !in segment
    ensures [segment] <= Segments(path) <==> Continues(segment, path)
  {
    var k := SlashAt(path);
    if Continues(segment, path) {
      assert path[..|segment|] == segment;
      SlashIs(path, |segment|);
    }
    if k == |path| {
      assert path[..k] == path;
    }
    assert Segments(path)[0] == path[..k];
  }

  lemma {:induction false} SegmentsCons(head: string, tail: string)
    requires '/' !in head
    ensures Segments(head + "/" + tail) == [head] + Segments(tail)
  {
    var s := head + "/" + tail;
    assert s[..|head|] == head && s[|head| + 1..] == tail;
    SlashIs(s, |head|);
  }

  lemma {:induction false} ConsPrefix<T>(x: T, a: seq<T>, b: seq<T>)
    ensures [x] + a <= [x] + b <==> a <= b
  {
    if [x] + a <= [x] + b {
      assert forall i :: 0 <= i < |a| ==> a[i] == ([x] + a)[i + 1] == ([x] + b)[i + 1] == b[i];
    }
  }

  lemma {:induction false} ContinuesIff(head: string, tail: string, rest: string)
    ensures Continues(head + "/" + tail, head + "/" + rest) <==> Continues(tail, rest)
  {
    var prefix, path, n := head + "/" + tail, head + "/" + rest, |head| + 1;
    assert prefix[n..] == tail && path[n..] == rest;
    if |tail| <= |rest| {
      assert path[..|prefix|] == head + "/" + rest[..|tail|];
      assert prefix[..n] == head + "/" && path[..|prefix|][n..] == rest[..|tail|];
    }
  }

  lemma {:induction false} SameHead(head: string, tail: string, rest: string)
    requires '/' !in head && (Segments(tail) <= Segments(rest) <==> Continues(tail, rest))
    ensures var prefix, path := head + "/" + tail, head + "/" + rest;
            Segments(prefix) <= Segments(path) <==> Continues(prefix, path)
  {
    SegmentsCons(head, tail);
    SegmentsCons(head, rest);
    ConsPrefix(head, Segments(tail), Segments(rest));
    ContinuesIff(head, tail, rest);
  }

  lemma {:induction false} OtherHead(head: string, tail: string, path: string)
    requires '/' !in head && !(head < path && path[|head|] == '/')
    ensures !Continues(head + "/" + tail, path) && !(Segments(head + "/" + tail) <= Segments(path))
  {
    var prefix := head + "/" + tail;
    assert prefix[..|head|] == head && prefix[|head|] == '/';
    SegmentsCons(head, tail);
    OneSegment(head, path);
    SlashIs(head, |head|);
    assert [head] + Segments(tail) <= Segments(path) ==> [head] <= Segments(path);
  }

  /** The segments of a prefix come first in exactly the paths that continue it. */
  lemma {:induction false} SegmentsMatch(prefix: string, path: string)
    requires !EndsInSlash(prefix)
    ensures Segments(prefix) <= Segments(path) <==> Continues(prefix, path)
    decreases |prefix|
  {
    var k := SlashAt(prefix);
    if k == |prefix| {
      assert prefix[..k] == prefix;
      OneSegment(prefix, path);
    } else {
      var head, tail := prefix[..k], prefix[k + 1..];
      assert prefix == head + "/" + tail;
      if head < path && path[k] == '/' {
        var rest := path[k + 1..];
        assert path == head + "/" + rest;
        assert tail != "" && tail[|tail| - 1] == prefix[|prefix| - 1];
        SegmentsMatch(tail, rest);
        SameHead(head, tail, rest);
      } else {
        OtherHead(head, tail, path);
      }
    }
  }

  /** A prefix admits exactly the paths of its subtree. */
  lemma {:induction false} PrefixCoversSubtree(prefix: string, path: string)
    ensures PathPrefixMatches(prefix, path) <==> InSubtree(prefix, path)
  {
    if !EndsInSlash(prefix) {
      SegmentsMatch(prefix, path);
    }
  }

  /** The destination serves the request: origin, method, and a path in the subtree of a configured prefix. */
  predicate Serves(d: Destination, url: Url, verb: string) {
    && url.scheme == d.scheme && Lower(url.host) == d.host && url.port == Some(d.port) && verb in d.methods
    && exists prefix :: prefix in d.pathPrefixes && InSubtree(prefix, url.path)
  }

  lemma {:induction false} AllowsIff(d: Destination, url: Url, verb: string)
    ensures Allows(d, url, verb) <==> Serves(d, url, verb)
  {
    forall prefix ensures PathPrefixMatches(prefix, url.path) <==> InSubtree(prefix, url.path) {
      PrefixCoversSubtree(prefix, url.path);
    }
    if Allows(d, url, verb) {
      var i :| 0 <= i < |d.pathPrefixes| && PathPrefixMatches(d.pathPrefixes[i], url.path);
      assert d.pathPrefixes[i] in d.pathPrefixes;
    }
  }

  // ---------- The choice ----------

  /** Of the destinations that serve the request, `d` is the one with the lowest id. */
  predicate Lowest(p: Policy, d: Destination, url: Url, verb: string) {
    && d.id in p.destinations && p.destinations[d.id] == d && Serves(d, url, verb)
    && (forall id :: id in p.destinations && Serves(p.destinations[id], url, verb) ==> id == d.id || Precedes(d.id, id))
  }

  /** The first destination, in id order, that allows the request. */
  function FirstAllowing(p: Policy, order: seq<string>, url: Url, verb: string): (r: Option<Destination>)
    ensures r.Some? ==> exists id :: id in order && id in p.destinations && r == Some(p.destinations[id])
    ensures r.Some? ==> Allows(r.value, url, verb)
    ensures r.None? ==> forall id :: id in order && id in p.destinations ==> !Allows(p.destinations[id], url, verb)
  {
    if order == [] then None
    else if order[0] in p.destinations && Allows(p.destinations[order[0]], url, verb)
    then Some(p.destinations[order[0]])
    else FirstAllowing(p, order[1..], url, verb)
  }

  lemma {:induction false} FirstPrecedesOthers(p: Policy, order: seq<string>, url: Url, verb: string, id: string)
    requires Ascending(order) && (forall x :: x in order ==> x in p.destinations && p.destinations[x].id == x)
    requires id in order && Allows(p.destinations[id], url, verb)
    ensures var d := FirstAllowing(p, order, url, verb);
            d.Some? && (id == d.value.id || Precedes(d.value.id, id))
  {
    if id != order[0] && !Allows(p.destinations[order[0]], url, verb) {
      FirstPrecedesOthers(p, order[1..], url, verb, id);
    }
  }

  /** The first that allows the request is the lowest that does, and there is one if any does. */
  lemma {:induction false} FirstIsLowest(p: Policy, url: Url, verb: string, d: Destination)
    requires WellFormed(p)
    ensures FirstAllowing(p, p.order, url, verb) == Some(d) <==> Lowest(p, d, url, verb)
  {
    var first := FirstAllowing(p, p.order, url, verb);
    forall id | id in p.destinations && Serves(p.destinations[id], url, verb)
      ensures first.Some? && (id == first.value.id || Precedes(first.value.id, id))
    {
      AllowsIff(p.destinations[id], url, verb);
      FirstPrecedesOthers(p, p.order, url, verb, id);
    }
    if first.Some? {
      AllowsIff(first.value, url, verb);
    }
    if Lowest(p, d, url, verb) && first.value.id != d.id {
      PrecedesOnce(d.id, first.value.id);
    }
  }

  /** `url` is the request's URL text, `parsed` what parsing it yields. */
  function Authorize(p: Policy, url: string, parsed: Option<Url>, verb: string)
    : (r: Result<Authorized, EgressError>)
    ensures r.Ok? ==> p.enabled && parsed == Some(r.value.url) && Serves(r.value.policy, r.value.url, Upper(verb))
    ensures r.Ok? && WellFormed(p) ==> Lowest(p, r.value.policy, r.value.url, Upper(verb))
  {
    if !p.enabled then Err(Disabled)
    else if |url| > MAX_URL_BYTES then Err(InvalidRequest("URL exceeds 8 KiB"))
    else if parsed.None? then Err(InvalidRequest("URL must be absolute"))
    else if !parsed.value.shapeAllowed then Err(Denied("URL shape is not allowed"))
    else if parsed.value.port.None? then Err(Denied("URL has no effective port"))
    else
      var d := FirstAllowing(p, p.order, parsed.value, Upper(verb));
      if d.None? then Err(Denied("destination is not allowlisted"))
      else
        assert Serves(d.value, parsed.value, Upper(verb)) by {
          AllowsIff(d.value, parsed.value, Upper(verb));
        }
        assert WellFormed(p) ==> Lowest(p, d.value, parsed.value, Upper(verb)) by {
          if WellFormed(p) {
            FirstIsLowest(p, parsed.value, Upper(verb), d.value);
          }
        }
        Ok(Authorized(d.value, parsed.value))
  }

  lemma {:induction false} GrantedIff(p: Policy, url: string, parsed: Option<Url>, verb: string)
    requires WellFormed(p)
    ensures Authorize(p, url, parsed, verb).Ok? <==>
              && p.enabled && |url| <= MAX_URL_BYTES && parsed.Some?
              && parsed.value.shapeAllowed && parsed.value.port.Some?
              && exists id :: id in p.destinations && Serves(p.destinations[id], parsed.value, Upper(verb))
  {
    if parsed.Some? {
      forall id | id in p.destinations
        ensures Allows(p.destinations[id], parsed.value, Upper(verb))
                <==> Serves(p.destinations[id], parsed.value, Upper(verb))
      {
        AllowsIff(p.destinations[id], parsed.value, Upper(verb));
      }
    }
  }

  /** A request is granted to a destination exactly when it is well shaped and that destination is the lowest. */
  lemma {:induction false} AuthorizeIff(p: Policy, url: string, parsed: Option<Url>, verb: string, a: Authorized)
    requires WellFormed(p)
    ensures Authorize(p, url, parsed, verb) == Ok(a) <==>
              && p.enabled && |url| <= MAX_URL_BYTES && parsed == Some(a.url)
              && a.url.shapeAllowed && a.url.port.Some?
              && Lowest(p, a.policy, a.url, Upper(verb))
    ensures Authorize(p, url, parsed, verb).Ok? <==>
              && p.enabled && |url| <= MAX_URL_BYTES && parsed.Some?
              && parsed.value.shapeAllowed && parsed.value.port.Some?
              && exists id :: id in p.destinations && Serves(p.destinations[id], parsed.value, Upper(verb))
  {
    if parsed == Some(a.url) {
      FirstIsLowest(p, a.url, Upper(verb), a.policy);
    }
    GrantedIff(p, url, parsed, verb);
  }

  /** The entry serves the request as it is configured, whatever the case of its host and methods. */
  predicate ServesAsConfigured(d: Destination, url: Url, verb: string) {
    && url.scheme == Lower(d.scheme) && SameIgnoringCase(url.host, d.host) && url.port == Some(d.port)
    && (exists m :: m in d.methods && SameIgnoringCase(m, verb))
    && exists prefix :: prefix in d.pathPrefixes && InSubtree(prefix, url.path)
  }

  /** An entry is normalized so that the case of a request's host, method and header names does not matter. */
  lemma {:induction false} NormalizedIgnoresCase(d: Destination, url: Url, verb: string, header: string)
    ensures Serves(Normalized(d), url, Upper(verb)) <==> ServesAsConfigured(d, url, verb)
    ensures Lower(header) in Normalized(d).allowedRequestHeaders <==>
            exists h :: h in d.allowedRequestHeaders && SameIgnoringCase(h, header)
  {
    LowerIff(url.host, d.host);
    forall m
      ensures Upper(m) == Upper(verb) <==> SameIgnoringCase(m, verb)
    {
      UpperIff(m, verb);
    }
    forall h
      ensures Lower(h) == Lower(header) <==> SameIgnoringCase(h, header)
    {
      LowerIff(h, header);
    }
  }

  /** A configuration that was accepted grants exactly the well-shaped requests that one of its entries serves. */
  lemma {:induction false} GrantsAsConfigured(c: Config, p: Policy, url: string, parsed: Option<Url>, verb: string)
    requires WellFormed(p) && p.enabled == c.enabled && Holds(p.destinations, c.destinations)
    ensures Authorize(p, url, parsed, verb).Ok? <==>
              && c.enabled && |url| <= 8192 && parsed.Some?
              && parsed.value.shapeAllowed && parsed.value.port.Some?
              && exists i :: 0 <= i < |c.destinations| && ServesAsConfigured(c.destinations[i], parsed.value, verb)
  {
    GrantedIff(p, url, parsed, verb);
    if parsed.Some? {
      forall i | 0 <= i < |c.destinations|
        ensures Serves(p.destinations[c.destinations[i].id], parsed.value, Upper(verb))
                <==> ServesAsConfigured(c.destinations[i], parsed.value, verb)
      {
        NormalizedIgnoresCase(c.destinations[i], parsed.value, verb, "");
      }
      assert forall id :: id in p.destinations ==> id in Ids(c.destinations);
    }
  }
}
