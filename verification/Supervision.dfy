/** A supervisor's restart decisions, one by one and over whole histories. */
module Supervision {
  import opened Common
  import opened Sums

  type ActorId = string

  datatype Strategy = OneForOne | OneForAll | RestForOne

  datatype Reason = Crash(message: string) | Timeout | ApprovalDenied | QuotaExhausted | Cancelled | DepthExceeded

  datatype Policy = Policy(strategy: Strategy, maxRestarts: nat)

  datatype Action = Cancel(actor: ActorId) | Restart(actor: ActorId) | Escalate(actor: ActorId, reason: Reason)

  datatype Decision = Decision(
    failed: ActorId, reason: Reason, strategy: Strategy, restartAttempt: Option<nat>, actions: seq<Action>)

  datatype State = State(children: seq<ActorId>, attempts: map<ActorId, nat>)

  predicate Restartable(reason: Reason) {
    reason.Crash? || reason.Timeout?
  }

  function AttemptsOf(s: State, id: ActorId): nat {
    if id in s.attempts then s.attempts[id] else 0
  }

  function CancelTargets(strategy: Strategy, children: seq<ActorId>, failed: nat): seq<ActorId>
    requires failed < |children|
  {
    match strategy
    case OneForOne => []
    case OneForAll => children[..failed] + children[failed + 1..]
    case RestForOne => children[failed + 1..]
  }

  function RestartTargets(strategy: Strategy, children: seq<ActorId>, failed: nat): seq<ActorId>
    requires failed < |children|
  {
    match strategy
    case OneForOne => [children[failed]]
    case OneForAll => children
    case RestForOne => children[failed..]
  }

  function Cancels(ids: seq<ActorId>): seq<Action> {
    seq(|ids|, i requires 0 <= i < |ids| => Cancel(ids[i]))
  }

  function Restarts(ids: seq<ActorId>): seq<Action> {
    seq(|ids|, i requires 0 <= i < |ids| => Restart(ids[i]))
  }

  function IndexOf(children: seq<ActorId>, id: ActorId): (k: nat)
    ensures k <= |children|
    ensures k < |children| ==> children[k] == id
    ensures id in children <==> k < |children|
  {
    if children == [] || children[0] == id then 0 else 1 + IndexOf(children[1..], id)
  }

  /** The decision on a failure and the state it leaves. */
  function Failure(policy: Policy, s: State, id: ActorId, reason: Reason): (State, Decision) {
    var k := IndexOf(s.children, id);
    var decision := Decision(id, reason, policy.strategy, None, []);
    if k == |s.children| then (s, decision.(actions := [Escalate(id, reason)]))
    else if reason.Cancelled? then (s, decision)
    else if !Restartable(reason) then (s, decision.(actions := [Escalate(id, reason)]))
    else
      var cancels := Cancels(CancelTargets(policy.strategy, s.children, k));
      var attempts := AttemptsOf(s, id);
      if attempts >= policy.maxRestarts then (s, decision.(actions := cancels + [Escalate(id, reason)]))
      else
        (s.(attempts := s.attempts[id := attempts + 1]),
         decision.(restartAttempt := Some(attempts + 1),
                   actions := cancels + Restarts(RestartTargets(policy.strategy, s.children, k))))
  }

  function Tracked(s: State, id: ActorId): State {
    if id in s.children then s else s.(children := s.children + [id])
  }

  function Succeeded(s: State, id: ActorId): State {
    s.(attempts := s.attempts - {id})
  }

  class Supervisor {
    const policy: Policy
    var children: seq<ActorId>
    var attempts: map<ActorId, nat>

    constructor (policy: Policy)
      ensures this.policy == policy && Contents() == State([], map[])
    {
      this.policy := policy;
      children, attempts := [], map[];
    }

    function Contents(): State
      reads this
    {
      State(children, attempts)
    }

    method Track(id: ActorId)
      modifies this
      ensures Contents() == Tracked(old(Contents()), id)
    {
      if id !in children {
        children := children + [id];
      }
    }

    method RecordSuccess(id: ActorId)
      modifies this
      ensures Contents() == Succeeded(old(Contents()), id)
    {
      attempts := attempts - {id};
    }

    method Position(id: ActorId) returns (k: nat)
      ensures k == IndexOf(children, id)
    {
      k := 0;
      while k < |children| && children[k] != id
        invariant k <= |children|
        invariant IndexOf(children, id) == k + IndexOf(children[k..], id)
      {
        assert children[k..][1..] == children[k + 1..];
        k := k + 1;
      }
    }

    method RecordFailure(id: ActorId, reason: Reason) returns (decision: Decision)
      modifies this
      ensures (Contents(), decision) == Failure(policy, old(Contents()), id, reason)
    {
      decision := Decision(id, reason, policy.strategy, None, []);
      var k := Position(id);
      if k == |children| {
        return decision.(actions := [Escalate(id, reason)]);
      }
      if reason.Cancelled? {
        return;
      }
      if !Restartable(reason) {
        return decision.(actions := [Escalate(id, reason)]);
      }
      var cancels := Cancels(CancelTargets(policy.strategy, children, k));
      if AttemptsOf(Contents(), id) >= policy.maxRestarts {
        return decision.(actions := cancels + [Escalate(id, reason)]);
      }
      attempts := attempts[id := AttemptsOf(Contents(), id) + 1];
      decision := decision.(restartAttempt := Some(attempts[id]));
      var restarts := Restarts(RestartTargets(policy.strategy, children, k));
      decision := decision.(actions := cancels + restarts);
    }
  }

  // ---- One decision ------------------------------------------------------------------------------------

  /** Some of the children, in the order they were spawned. */
  predicate SpawnOrder(ids: seq<ActorId>, children: seq<ActorId>)
    decreases |children|
  {
    ids == [] ||
    (children != [] &&
     if ids[0] == children[0] then SpawnOrder(ids[1..], children[1..]) else SpawnOrder(ids, children[1..]))
  }

  lemma {:induction false} AllInSpawnOrder(children: seq<ActorId>)
    ensures SpawnOrder(children, children)
  {
    if children != [] {
      AllInSpawnOrder(children[1..]);
    }
  }

  lemma {:induction false} TailDistinct<T>(s: seq<T>)
    requires Distinct(s) && s != []
    ensures Distinct(s[1..])
  {
    if |s| > 1 {
      var init := s[..|s| - 1];
      TailDistinct(init);
      assert s[1..][..|s| - 2] == init[1..];
    }
  }

  lemma {:induction false} SuffixInSpawnOrder(children: seq<ActorId>, k: nat)
    requires Distinct(children) && k <= |children|
    ensures SpawnOrder(children[k..], children)
    decreases k
  {
    if k == 0 {
      AllInSpawnOrder(children);
      assert children[0..] == children;
    } else {
      TailDistinct(children);
      SuffixInSpawnOrder(children[1..], k - 1);
      assert children[1..][k - 1..] == children[k..];
      if k < |children| {
        DistinctAt(children, k);
        assert children[0] in children[..k];
      }
    }
  }

  lemma {:induction false} OthersInSpawnOrder(children: seq<ActorId>, k: nat)
    requires Distinct(children) && k < |children|
    ensures SpawnOrder(children[..k] + children[k + 1..], children)
    decreases k
  {
    var others := children[..k] + children[k + 1..];
    if k == 0 {
      SuffixInSpawnOrder(children, 1);
      assert others == children[1..];
    } else {
      TailDistinct(children);
      OthersInSpawnOrder(children[1..], k - 1);
      assert others[1..] == children[1..][..k - 1] + children[1..][k..];
    }
  }

  lemma {:induction false} OneInSpawnOrder(children: seq<ActorId>, k: nat)
    requires k < |children|
    ensures SpawnOrder([children[k]], children)
    decreases k
  {
    if children[0] != children[k] {
      OneInSpawnOrder(children[1..], k - 1);
    } else {
      assert [children[k]][1..] == [];
    }
  }

  lemma {:induction false} HeadNotInTail<T>(s: seq<T>)
    requires Distinct(s) && s != []
    ensures s[0] !in s[1..]
  {
    forall i | 0 < i < |s| ensures s[i] != s[0] {
      DistinctAt(s, i);
      assert s[..i][0] == s[0];
    }
  }

  lemma {:induction false} ConsDistinct<T>(s: seq<T>)
    requires s != [] && Distinct(s[1..]) && s[0] !in s[1..]
    ensures Distinct(s)
  {
    if |s| > 1 {
      var init := s[..|s| - 1];
      assert init[1..] == s[1..][..|s| - 2];
      ConsDistinct(init);
      assert s[1..][|s| - 2] == s[|s| - 1];
      assert s[|s| - 1] !in init;
    }
  }

  lemma {:induction false} SpawnOrderDistinct(ids: seq<ActorId>, children: seq<ActorId>)
    requires SpawnOrder(ids, children) && Distinct(children)
    ensures Distinct(ids) && forall id :: id in ids ==> id in children
    decreases |children|
  {
    if ids != [] {
      TailDistinct(children);
      if ids[0] == children[0] {
        SpawnOrderDistinct(ids[1..], children[1..]);
        HeadNotInTail(children);
        ConsDistinct(ids);
        assert ids == [ids[0]] + ids[1..];
      } else {
        SpawnOrderDistinct(ids, children[1..]);
      }
    }
  }

  function Members(ids: seq<ActorId>): set<ActorId> {
    set id | id in ids
  }

  /**
   * A restart decision cancels, then restarts. Neither names an actor twice, both keep spawn order,
   * and the restarted are the cancelled and the failed actor, whatever the strategy.
   */
  ghost predicate CancelThenRestart(
    s: State, id: ActorId, actions: seq<Action>, cancelled: seq<ActorId>, restarted: seq<ActorId>)
  {
    && actions == Cancels(cancelled) + Restarts(restarted)
    && Distinct(cancelled) && Distinct(restarted)
    && SpawnOrder(cancelled, s.children) && SpawnOrder(restarted, s.children)
    && id !in cancelled
    && Members(restarted) == Members(cancelled) + {id}
  }

  lemma {:induction false} TargetsInOrder(strategy: Strategy, children: seq<ActorId>, k: nat)
    requires Distinct(children) && k < |children|
    ensures SpawnOrder(CancelTargets(strategy, children, k), children)
    ensures SpawnOrder(RestartTargets(strategy, children, k), children)
  {
    match strategy
    case OneForOne => OneInSpawnOrder(children, k);
    case OneForAll => OthersInSpawnOrder(children, k); AllInSpawnOrder(children);
    case RestForOne => SuffixInSpawnOrder(children, k + 1); SuffixInSpawnOrder(children, k);
  }

  lemma {:induction false} TargetSets(strategy: Strategy, children: seq<ActorId>, k: nat)
    requires Distinct(children) && k < |children|
    ensures children[k] !in CancelTargets(strategy, children, k)
    ensures Members(RestartTargets(strategy, children, k)) ==
            Members(CancelTargets(strategy, children, k)) + {children[k]}
  {
    assert children == children[..k] + [children[k]] + children[k + 1..];
    assert children[k..] == [children[k]] + children[k + 1..];
    forall j | 0 <= j < |children| && j != k ensures children[j] != children[k] {
      DistinctAt(children, if j < k then k else j);
      assert j < k ==> children[..k][j] == children[j];
      assert k < j ==> children[..j][k] == children[k];
    }
  }

  lemma {:induction false} RestartDecision(policy: Policy, s: State, id: ActorId, reason: Reason)
    requires Distinct(s.children)
    requires Failure(policy, s, id, reason).1.restartAttempt.Some?
    ensures exists cancelled, restarted ::
              CancelThenRestart(s, id, Failure(policy, s, id, reason).1.actions, cancelled, restarted)
  {
    var k := IndexOf(s.children, id);
    var cancelled := CancelTargets(policy.strategy, s.children, k);
    var restarted := RestartTargets(policy.strategy, s.children, k);
    TargetsInOrder(policy.strategy, s.children, k);
    TargetSets(policy.strategy, s.children, k);
    SpawnOrderDistinct(cancelled, s.children);
    SpawnOrderDistinct(restarted, s.children);
    assert CancelThenRestart(s, id, Failure(policy, s, id, reason).1.actions, cancelled, restarted);
  }

  // ---- Histories -----------------------------------------------------------------------------------------

  datatype Event = Track(id: ActorId) | Success(id: ActorId) | Fail(id: ActorId, reason: Reason)

  function Step(policy: Policy, s: State, e: Event): State {
    match e
    case Track(id) => Tracked(s, id)
    case Success(id) => Succeeded(s, id)
    case Fail(id, reason) => Failure(policy, s, id, reason).0
  }

  function Run(policy: Policy, events: seq<Event>): State {
    if events == [] then State([], map[])
    else Step(policy, Run(policy, events[..|events| - 1]), events[|events| - 1])
  }

  function Restarting(policy: Policy, s: State, e: Event): nat {
    if e.Fail? && Failure(policy, s, e.id, e.reason).1.restartAttempt.Some? then 1 else 0
  }

  /** How many restart decisions a history makes. */
  function RestartCount(policy: Policy, events: seq<Event>): nat {
    if events == [] then 0
    else
      var earlier, last := events[..|events| - 1], events[|events| - 1];
      RestartCount(policy, earlier) + Restarting(policy, Run(policy, earlier), last)
  }

  function SuccessCount(events: seq<Event>): nat {
    if events == [] then 0
    else SuccessCount(events[..|events| - 1]) + if events[|events| - 1].Success? then 1 else 0
  }

  ghost predicate Bounded(policy: Policy, s: State) {
    && Distinct(s.children)
    && forall id :: id in s.attempts ==> id in s.children && s.attempts[id] <= policy.maxRestarts
  }

  /** In every history no actor's attempts exceed the limit. */
  lemma {:induction false} AttemptsBounded(policy: Policy, events: seq<Event>)
    ensures Bounded(policy, Run(policy, events))
  {
    if events != [] {
      AttemptsBounded(policy, events[..|events| - 1]);
      var s := Run(policy, events[..|events| - 1]);
      match events[|events| - 1]
      case Track(id) =>
        assert (s.children + [id])[..|s.children|] == s.children;
      case Success(id) =>
      case Fail(id, reason) =>
    }
  }

  lemma {:induction false} TotalReplaced<K(!new)>(m: map<K, nat>, k: K, n: nat)
    ensures Total(m[k := n]) == Total(m - {k}) + n
    ensures Total(m) == Total(m - {k}) + if k in m then m[k] else 0
  {
    TotalTakesOut(m[k := n], k);
    assert m[k := n] - {k} == m - {k};
    if k in m {
      TotalTakesOut(m, k);
    } else {
      assert m - {k} == m;
    }
  }

  /** A restart decision adds one attempt, and a success takes back at most the limit. */
  lemma {:induction false} StepPaidFor(policy: Policy, s: State, e: Event)
    requires Bounded(policy, s)
    ensures Total(s.attempts) + Restarting(policy, s, e) <=
            Total(Step(policy, s, e).attempts) + if e.Success? then policy.maxRestarts else 0
  {
    TotalReplaced(s.attempts, e.id, AttemptsOf(s, e.id) + 1);
  }

  lemma {:induction false} OneMore(a: nat, n: nat)
    ensures (a + 1) * n == a * n + n
  {
  }

  lemma {:induction false} RestartsPaidFor(policy: Policy, events: seq<Event>)
    ensures RestartCount(policy, events) <=
            Total(Run(policy, events).attempts) + SuccessCount(events) * policy.maxRestarts
  {
    if events != [] {
      var earlier, last := events[..|events| - 1], events[|events| - 1];
      RestartsPaidFor(policy, earlier);
      AttemptsBounded(policy, earlier);
      StepPaidFor(policy, Run(policy, earlier), last);
      OneMore(SuccessCount(earlier), policy.maxRestarts);
    }
  }

  lemma {:induction false} Scaled(a: nat, b: nat, n: nat)
    requires a <= b
    ensures a * n <= b * n
  {
  }

  /** Attempts on record are at most the limit for each child. */
  lemma {:induction false} AttemptsWithinChildren(policy: Policy, s: State)
    requires Bounded(policy, s)
    ensures Total(s.attempts) <= |s.children| * policy.maxRestarts
  {
    TotalBound(s.attempts, policy.maxRestarts);
    SubsetCount(s.attempts.Keys, Members(s.children));
    DistinctCount(s.children);
    assert |s.attempts| == |s.attempts.Keys|;
    Scaled(|s.attempts|, |s.children|, policy.maxRestarts);
  }

  /** A history makes at most so many restarts for each child, and as many more for each success. */
  lemma {:induction false} RestartsBounded(policy: Policy, events: seq<Event>)
    ensures RestartCount(policy, events) <=
            |Run(policy, events).children| * policy.maxRestarts + SuccessCount(events) * policy.maxRestarts
  {
    RestartsPaidFor(policy, events);
    AttemptsBounded(policy, events);
    AttemptsWithinChildren(policy, Run(policy, events));
  }

  /** Without a success, exactly one attempt is recorded for each restart. */
  lemma {:induction false} RestartsAreAttempts(policy: Policy, events: seq<Event>)
    requires SuccessCount(events) == 0
    ensures RestartCount(policy, events) == Total(Run(policy, events).attempts)
  {
    if events != [] {
      var earlier, last := events[..|events| - 1], events[|events| - 1];
      RestartsAreAttempts(policy, earlier);
      TotalReplaced(Run(policy, earlier).attempts, last.id, AttemptsOf(Run(policy, earlier), last.id) + 1);
    }
  }

  /** The restarts decided for an actor since its last success, counted in the history. */
  function SinceSuccess(policy: Policy, events: seq<Event>, id: ActorId): nat {
    if events == [] then 0
    else
      var earlier, last := events[..|events| - 1], events[|events| - 1];
      if last.id != id then SinceSuccess(policy, earlier, id)
      else if last.Success? then 0
      else SinceSuccess(policy, earlier, id) + Restarting(policy, Run(policy, earlier), last)
  }

  lemma {:induction false} HistoryTells(policy: Policy, events: seq<Event>, id: ActorId)
    ensures AttemptsOf(Run(policy, events), id) == SinceSuccess(policy, events, id)
    ensures id in Run(policy, events).children <==> Track(id) in events
  {
    if events != [] {
      var earlier := events[..|events| - 1];
      HistoryTells(policy, earlier, id);
      assert events == earlier + [events[|events| - 1]];
    }
  }

  /**
   * After any history a restart is decided exactly for the crash or timeout of an actor that was tracked and
   * has been restarted fewer times than the limit since its last success; it is numbered one more than those.
   */
  lemma {:induction false} RestartsIff(policy: Policy, events: seq<Event>, id: ActorId, reason: Reason)
    ensures Failure(policy, Run(policy, events), id, reason).1.restartAttempt
            == if Track(id) in events && (reason.Crash? || reason.Timeout?)
                  && SinceSuccess(policy, events, id) < policy.maxRestarts
               then Some(SinceSuccess(policy, events, id) + 1) else None
  {
    HistoryTells(policy, events, id);
  }

  /**
   * After any history a failure escalates, itself and nothing else, exactly if the actor was never tracked, or if it
   * was not cancelled and cannot be restarted, for its reason or for want of attempts.
   */
  lemma {:induction false} EscalatesIff(
    policy: Policy, events: seq<Event>, id: ActorId, reason: Reason, actor: ActorId, cause: Reason)
    ensures Escalate(actor, cause) in Failure(policy, Run(policy, events), id, reason).1.actions <==>
            && actor == id && cause == reason
            && (|| Track(id) !in events
                || reason.ApprovalDenied? || reason.QuotaExhausted? || reason.DepthExceeded?
                || (!reason.Cancelled? && SinceSuccess(policy, events, id) >= policy.maxRestarts))
  {
    HistoryTells(policy, events, id);
  }

  /** The strategy has the actor cancelled along with the failed one. */
  predicate GoesAlong(strategy: Strategy, children: seq<ActorId>, failed: ActorId, actor: ActorId) {
    match strategy
    case OneForOne => false
    case OneForAll => actor in children && actor != failed
    case RestForOne => actor in children && IndexOf(children, actor) > IndexOf(children, failed)
  }

  lemma {:induction false} IndexIs(children: seq<ActorId>, k: nat)
    requires Distinct(children) && k < |children|
    ensures IndexOf(children, children[k]) == k
  {
    if k > 0 {
      TailDistinct(children);
      HeadNotInTail(children);
      assert children[1..][k - 1] == children[k];
      IndexIs(children[1..], k - 1);
    }
  }

  lemma {:induction false} ActionsName(ids: seq<ActorId>, actor: ActorId)
    ensures Cancel(actor) in Cancels(ids) <==> actor in ids
  {
    if actor in ids {
      var i :| 0 <= i < |ids| && ids[i] == actor;
      assert Cancels(ids)[i] == Cancel(actor);
    }
  }

  lemma {:induction false} TargetsGoAlong(strategy: Strategy, children: seq<ActorId>, k: nat, actor: ActorId)
    requires Distinct(children) && k < |children|
    ensures actor in CancelTargets(strategy, children, k) <==> GoesAlong(strategy, children, children[k], actor)
  {
    IndexIs(children, k);
    assert children == children[..k] + [children[k]] + children[k + 1..];
    forall j | 0 <= j < |children| ensures IndexOf(children, children[j]) == j {
      IndexIs(children, j);
    }
    if strategy.RestForOne? && actor in children {
      var j := IndexOf(children, actor);
      assert j > k ==> children[k + 1..][j - k - 1] == actor;
    }
  }

  /** Whom a failure cancels, after any history: those the strategy has go along, if it is a crash or a timeout. */
  lemma {:induction false} CancelsIff(
    policy: Policy, events: seq<Event>, id: ActorId, reason: Reason, actor: ActorId)
    ensures Cancel(actor) in Failure(policy, Run(policy, events), id, reason).1.actions <==>
            && Track(id) in events && (reason.Crash? || reason.Timeout?)
            && GoesAlong(policy.strategy, Run(policy, events).children, id, actor)
  {
    var s := Run(policy, events);
    AttemptsBounded(policy, events);
    HistoryTells(policy, events, id);
    if id in s.children {
      TargetsGoAlong(policy.strategy, s.children, IndexOf(s.children, id), actor);
      ActionsName(CancelTargets(policy.strategy, s.children, IndexOf(s.children, id)), actor);
    }
  }
}
