/**
 What the budget book keeps over every sequence of calls: its saturating counters are the exact sums
 of its reservation records, caps hold, no call is ever half applied, and repeats change nothing.
 */
module EgressLedger {
  import opened Sums
  import opened Common
  import opened EgressBudget

  // ---------- Exact totals ----------

  datatype Tally = Tally(
    requests: nat, requestBytes: nat, responseBytes: nat,
    responseReserved: nat, timeMs: nat, timeReservedMs: nat)

  const ZERO := Tally(0, 0, 0, 0, 0, 0)

  function Plus(a: Tally, b: Tally): Tally {
    Tally(a.requests + b.requests, a.requestBytes + b.requestBytes,
          a.responseBytes + b.responseBytes, a.responseReserved + b.responseReserved,
          a.timeMs + b.timeMs, a.timeReservedMs + b.timeReservedMs)
  }

  function Exact(u: Usage): Tally {
    Tally(u.requests, u.requestBytes, u.responseBytes, u.responseReserved, u.timeMs, u.timeReservedMs)
  }

  /** What one reservation record contributes: its reservation while open, its actual use once settled. */
  function Charge(r: Record): Tally {
    if r.settled
    then Tally(1, r.requestBytes, r.responseBytes, 0, Min(r.elapsedMs, r.reservation.timeReservedMs), 0)
    else Tally(1, r.requestBytes, 0, r.reservation.responseReserved, 0, r.reservation.timeReservedMs)
  }

  function Charges(records: map<string, Record>): map<string, Tally> {
    map id | id in records :: Charge(records[id])
  }

  function ChargesAt(records: map<string, Record>, destination: string): map<string, Tally> {
    map id | id in records && records[id].reservation.destinationId == destination :: Charge(records[id])
  }

  function PerDestination(usages: map<string, Usage>): map<string, Tally> {
    map d | d in usages :: Exact(usages[d])
  }

  ghost function Sum(m: map<string, Tally>): Tally
    decreases |m|
  {
    if m == map[] then ZERO else Plus(m[Pick(m)], Sum(m - {Pick(m)}))
  }

  /** The order in which a map is summed does not matter. */
  lemma {:induction false} SumTakesOut(m: map<string, Tally>, k: string)
    requires k in m
    ensures Sum(m) == Plus(m[k], Sum(m - {k}))
    decreases |m|
  {
    var p := Pick(m);
    if p != k {
      SumTakesOut(m - {p}, k);
      SumTakesOut(m - {k}, p);
      assert m - {p} - {k} == m - {k} - {p};
    }
  }

  lemma {:induction false} SumPutsIn(m: map<string, Tally>, k: string, t: Tally)
    ensures Sum(m[k := t]) == Plus(t, Sum(m - {k}))
    ensures k !in m ==> Sum(m - {k}) == Sum(m)
    ensures k in m ==> Sum(m) == Plus(m[k], Sum(m - {k}))
  {
    SumTakesOut(m[k := t], k);
    assert m[k := t] - {k} == m - {k};
    if k in m {
      SumTakesOut(m, k);
    } else {
      assert m - {k} == m;
    }
  }

  // ---------- What the book keeps ----------

  /** Every record is filed under its own id and session, and has a destination usage. */
  predicate Filed(id: string, s: SessionUsage) {
    forall r :: r in s.reservations ==>
      && s.reservations[r].reservation.reservationId == r
      && s.reservations[r].reservation.sessionId == id
      && s.reservations[r].reservation.destinationId in s.destinations
  }

  /** Conservation: in all six counters, total = sum of destinations = fold of the records. */
  ghost predicate Balanced(s: SessionUsage) {
    && Exact(s.total) == Sum(Charges(s.reservations))
    && Exact(s.total) == Sum(PerDestination(s.destinations))
    && (forall d :: d in s.destinations ==>
          Exact(s.destinations[d]) == Sum(ChargesAt(s.reservations, d)))
  }

  /** What is used plus what is still reserved is itself a u64. */
  predicate Headroom(u: Usage) {
    && u.responseBytes + u.responseReserved <= U64_MAX
    && u.timeMs + u.timeReservedMs <= U64_MAX
  }

  ghost predicate Sound(id: string, s: SessionUsage) {
    Filed(id, s) && Balanced(s) && Headroom(s.total)
  }

  lemma {:induction false} DestinationWithinTotal(id: string, s: SessionUsage, d: string)
    requires Sound(id, s) && d in s.destinations
    ensures var u, t := s.destinations[d], s.total;
            && u.requests <= t.requests && u.requestBytes <= t.requestBytes
            && u.responseBytes <= t.responseBytes && u.responseReserved <= t.responseReserved
            && u.timeMs <= t.timeMs && u.timeReservedMs <= t.timeReservedMs
  {
    SumTakesOut(PerDestination(s.destinations), d);
  }

  lemma {:induction false} OpenRecordWithinUsages(id: string, s: SessionUsage, res: Reservation)
    requires Sound(id, s) && Opens(s, res)
    ensures res.destinationId in s.destinations
    ensures res.responseReserved <= s.destinations[res.destinationId].responseReserved <= s.total.responseReserved
    ensures res.timeReservedMs <= s.destinations[res.destinationId].timeReservedMs <= s.total.timeReservedMs
  {
    assert s.reservations[res.reservationId].reservation == res;
    SumTakesOut(ChargesAt(s.reservations, res.destinationId), res.reservationId);
    DestinationWithinTotal(id, s, res.destinationId);
  }

  /** Replacing or adding one record moves the fold by exactly the change of its charge. */
  lemma {:induction false} RecordMovesSum(records: map<string, Record>, id: string, r: Record)
    ensures var before := if id in records then Charge(records[id]) else ZERO;
            Plus(Sum(Charges(records[id := r])), before) == Plus(Sum(Charges(records)), Charge(r))
  {
    assert Charges(records[id := r]) == Charges(records)[id := Charge(r)];
    SumPutsIn(Charges(records), id, Charge(r));
  }

  /** The same at the record's own destination; no other destination's fold moves. */
  lemma {:induction false} RecordMovesSumAt(records: map<string, Record>, id: string, r: Record, d: string)
    requires id in records ==> records[id].reservation.destinationId == r.reservation.destinationId
    ensures d != r.reservation.destinationId ==> ChargesAt(records[id := r], d) == ChargesAt(records, d)
    ensures var before := if id in records then Charge(records[id]) else ZERO;
            d == r.reservation.destinationId ==>
              Plus(Sum(ChargesAt(records[id := r], d)), before) == Plus(Sum(ChargesAt(records, d)), Charge(r))
  {
    if d == r.reservation.destinationId {
      assert ChargesAt(records[id := r], d) == ChargesAt(records, d)[id := Charge(r)];
      SumPutsIn(ChargesAt(records, d), id, Charge(r));
    }
  }

  lemma {:induction false} UsageMovesSum(usages: map<string, Usage>, d: string, u: Usage)
    ensures var before := if d in usages then Exact(usages[d]) else ZERO;
            Plus(Sum(PerDestination(usages[d := u])), before) == Plus(Sum(PerDestination(usages)), Exact(u))
  {
    assert PerDestination(usages[d := u]) == PerDestination(usages)[d := Exact(u)];
    SumPutsIn(PerDestination(usages), d, Exact(u));
  }

  /** `s'` is `s` with record `r` filed under `id` and the usage of its destination replaced. */
  ghost predicate Moves(s: SessionUsage, s': SessionUsage, id: string, r: Record) {
    var d := r.reservation.destinationId;
    && (id in s.reservations ==> s.reservations[id].reservation.destinationId == d)
    && (d !in s.destinations ==> Sum(ChargesAt(s.reservations, d)) == ZERO)
    && d in s'.destinations
    && s'.reservations == s.reservations[id := r]
    && s'.destinations == s.destinations[d := s'.destinations[d]]
  }

  function ChargeBefore(s: SessionUsage, id: string): Tally {
    if id in s.reservations then Charge(s.reservations[id]) else ZERO
  }

  /** Total and destination usage both moved by the change of the record's charge. */
  predicate MovedAlike(s: SessionUsage, s': SessionUsage, id: string, r: Record)
    requires r.reservation.destinationId in s'.destinations
  {
    var d := r.reservation.destinationId;
    && Plus(Exact(s'.total), ChargeBefore(s, id)) == Plus(Exact(s.total), Charge(r))
    && Plus(Exact(s'.destinations[d]), ChargeBefore(s, id)) == Plus(Exact(DestinationOf(s, d)), Charge(r))
  }

  /** If `a` and `b` each exceed something equal by the same amount, they are equal. */
  lemma {:induction false} Cancel(a: Tally, b: Tally, c: Tally, x: Tally)
    requires Plus(a, c) == x && Plus(b, c) == x
    ensures a == b
  {
  }

  /** Two counters that moved alike, added to a sum that contains one of them, keep it the sum. */
  lemma {:induction false} CancelBoth(
    t: Tally, t': Tally, sum: Tally, sum': Tally, u: Tally, u': Tally, before: Tally, after: Tally)
    requires t == sum
    requires Plus(t', before) == Plus(t, after) && Plus(u', before) == Plus(u, after)
    requires Plus(sum', u) == Plus(sum, u')
    ensures t' == sum'
  {
  }

  lemma {:induction false} DestinationFoldMoves(s: SessionUsage, s': SessionUsage, id: string, r: Record, e: string)
    requires Balanced(s) && Moves(s, s', id, r) && MovedAlike(s, s', id, r)
    requires e in s'.destinations
    ensures Exact(s'.destinations[e]) == Sum(ChargesAt(s'.reservations, e))
  {
    RecordMovesSumAt(s.reservations, id, r, e);
    if e == r.reservation.destinationId {
      Cancel(Exact(s'.destinations[e]), Sum(ChargesAt(s'.reservations, e)), ChargeBefore(s, id),
             Plus(Exact(DestinationOf(s, e)), Charge(r)));
    }
  }

  lemma {:induction false} MovedAlikeIsBalanced(s: SessionUsage, s': SessionUsage, id: string, r: Record)
    requires Balanced(s) && Moves(s, s', id, r) && MovedAlike(s, s', id, r)
    ensures Balanced(s')
  {
    var d := r.reservation.destinationId;
    var before := ChargeBefore(s, id);
    assert Exact(s'.total) == Sum(Charges(s'.reservations)) by {
      RecordMovesSum(s.reservations, id, r);
      Cancel(Exact(s'.total), Sum(Charges(s'.reservations)), before, Plus(Exact(s.total), Charge(r)));
    }
    assert Exact(s'.total) == Sum(PerDestination(s'.destinations)) by {
      UsageMovesSum(s.destinations, d, s'.destinations[d]);
      CancelBoth(Exact(s.total), Exact(s'.total), Sum(PerDestination(s.destinations)),
                 Sum(PerDestination(s'.destinations)), Exact(DestinationOf(s, d)),
                 Exact(s'.destinations[d]), before, Charge(r));
    }
    forall e | e in s'.destinations
      ensures Exact(s'.destinations[e]) == Sum(ChargesAt(s'.reservations, e))
    {
      DestinationFoldMoves(s, s', id, r, e);
    }
  }

  lemma {:induction false} BalancedMovedAlike(s: SessionUsage, s': SessionUsage, id: string, r: Record)
    requires Balanced(s) && Moves(s, s', id, r) && Balanced(s')
    ensures MovedAlike(s, s', id, r)
  {
    RecordMovesSum(s.reservations, id, r);
    RecordMovesSumAt(s.reservations, id, r, r.reservation.destinationId);
  }

  // ---------- One reservation ----------

  /** The request fits into what is left of the u64 range. */
  predicate FitsRange(u: Usage, req: Request) {
    && u.requestBytes + req.requestBytes <= U64_MAX
    && u.responseBytes + u.responseReserved + req.responseReserved <= U64_MAX
    && u.timeMs + u.timeReservedMs + req.timeReservedMs <= U64_MAX
  }

  /** A destination that no record names has no charges. */
  lemma {:induction false} NoDestinationNoCharges(id: string, s: SessionUsage, d: string)
    requires Filed(id, s) && d !in s.destinations
    ensures Sum(ChargesAt(s.reservations, d)) == ZERO
  {
    assert ChargesAt(s.reservations, d) == map[];
  }

  lemma {:induction false} ChargedMoves(id: string, s: SessionUsage, req: Request)
    requires Sound(id, s) && req.sessionId == id && req.reservationId !in s.reservations
    ensures Filed(id, Charged(s, req))
    ensures Moves(s, Charged(s, req), req.reservationId, Record(ReservationFor(req), req.requestBytes, false, 0, 0))
  {
    if req.destinationId !in s.destinations {
      NoDestinationNoCharges(id, s, req.destinationId);
    }
  }

  /** Charging a usage adds exactly the record's charge precisely when nothing saturates. */
  lemma {:induction false} ReserveUsageExactIff(u: Usage, req: Request, r: Record)
    requires r == Record(ReservationFor(req), req.requestBytes, false, 0, 0) && u.requests < U64_MAX
    ensures Plus(Exact(ReserveUsage(u, req.requestBytes, req.responseReserved, req.timeReservedMs)), ZERO)
              == Plus(Exact(u), Charge(r))
            <==> && u.requestBytes + req.requestBytes <= U64_MAX
                 && u.responseReserved + req.responseReserved <= U64_MAX
                 && u.timeReservedMs + req.timeReservedMs <= U64_MAX
  {
  }

  /** An accepted reservation keeps the book sound exactly when it fits the u64 range. */
  lemma {:induction false} ReserveSoundIff(id: string, s: SessionUsage, req: Request)
    requires Sound(id, s) && req.sessionId == id && req.reservationId !in s.reservations
    requires ReserveAnswer(s, req).Ok?
    ensures Sound(id, Charged(s, req)) <==> FitsRange(s.total, req)
  {
    var s' := Charged(s, req);
    var r := Record(ReservationFor(req), req.requestBytes, false, 0, 0);
    ChargedMoves(id, s, req);
    ReserveUsageExactIff(s.total, req, r);
    ReserveUsageExactIff(DestinationOf(s, req.destinationId), req, r);
    assert ChargeBefore(s, req.reservationId) == ZERO;
    if FitsRange(s.total, req) {
      if req.destinationId in s.destinations {
        DestinationWithinTotal(id, s, req.destinationId);
      }
      MovedAlikeIsBalanced(s, s', req.reservationId, r);
    } else if Balanced(s') {
      BalancedMovedAlike(s, s', req.reservationId, r);
    }
  }

  // ---------- One settlement ----------

  /** The settled bytes fit into what is left of the u64 range. */
  predicate SettlesInRange(u: Usage, res: Reservation, bytes: u64) {
    u.responseBytes + bytes + u.responseReserved <= U64_MAX + res.responseReserved
  }

  /** Releasing from a usage moves it from the open to the settled charge precisely when nothing saturates. */
  lemma {:induction false} SettleUsageExactIff(u: Usage, open: Record, bytes: u64, elapsedMs: u64)
    requires !open.settled && Headroom(u)
    requires open.reservation.responseReserved <= u.responseReserved
    requires open.reservation.timeReservedMs <= u.timeReservedMs
    ensures var res := open.reservation;
            var u' := SettleUsage(u, res.responseReserved, res.timeReservedMs, bytes, elapsedMs);
            var r := open.(settled := true, responseBytes := bytes, elapsedMs := elapsedMs);
            Plus(Exact(u'), Charge(open)) == Plus(Exact(u), Charge(r)) <==> u.responseBytes + bytes <= U64_MAX
  {
  }

  /** Settling an open reservation keeps the book sound exactly when the bytes fit the u64 range. */
  lemma {:induction false} SettleSoundIff(id: string, s: SessionUsage, res: Reservation, bytes: u64, elapsedMs: u64)
    requires Sound(id, s) && Opens(s, res)
    ensures Sound(id, Released(s, res, bytes, elapsedMs)) <==> SettlesInRange(s.total, res, bytes)
  {
    OpenRecordWithinUsages(id, s, res);
    DestinationWithinTotal(id, s, res.destinationId);
    var s' := Released(s, res, bytes, elapsedMs);
    var open, r := s.reservations[res.reservationId], s'.reservations[res.reservationId];
    assert Filed(id, s') && Moves(s, s', res.reservationId, r);
    SettleUsageExactIff(s.total, open, bytes, elapsedMs);
    SettleUsageExactIff(s.destinations[res.destinationId], open, bytes, elapsedMs);
    if SettlesInRange(s.total, res, bytes) {
      MovedAlikeIsBalanced(s, s', res.reservationId, r);
    } else if Balanced(s') {
      BalancedMovedAlike(s, s', res.reservationId, r);
    }
  }

  // ---------- Every run ----------

  predicate CapsBelowMax(l: Limits) {
    l.maxRequestBytes < U64_MAX && l.maxResponseBytes < U64_MAX && l.maxTimeMs < U64_MAX
  }

  /** Session caps below the u64 maximum; no settlement above its reservation. */
  predicate Admissible(op: Op) {
    match op
    case Reserve(req) => CapsBelowMax(req.sessionLimits)
    case Settle(res, bytes, _) => bytes <= res.responseReserved
    case Clear(_) => true
  }

  ghost predicate AllSound(sessions: Sessions) {
    forall id :: id in sessions ==> Sound(id, sessions[id])
  }

  lemma {:induction false} EmptySessionSound(id: string)
    ensures Sound(id, NO_SESSION)
  {
    assert Charges(map[]) == map[];
    assert PerDestination(map[]) == map[];
  }

  lemma {:induction false} OneSessionSound(sessions: Sessions, id: string, s: SessionUsage)
    requires AllSound(sessions) && Sound(id, s)
    ensures AllSound(sessions[id := s])
  {
  }

  /** What caps below the u64 maximum admit fits the u64 range. */
  lemma {:induction false} BelowMaxFits(u: Usage, l: Limits, req: Request)
    requires ValidateReservation(u, l, req.requestBytes, req.responseReserved, req.timeReservedMs) == None
    requires CapsBelowMax(l)
    ensures FitsRange(u, req)
  {
  }

  lemma {:induction false} AdmissibleReserveSound(s: SessionUsage, req: Request)
    requires Sound(req.sessionId, s) && req.reservationId !in s.reservations
    requires ReserveAnswer(s, req).Ok? && Admissible(Reserve(req))
    ensures Sound(req.sessionId, Charged(s, req))
  {
    BelowMaxFits(s.total, req.sessionLimits, req);
    ReserveSoundIff(req.sessionId, s, req);
  }

  lemma {:induction false} ReserveStepSound(sessions: Sessions, req: Request)
    requires AllSound(sessions) && Admissible(Reserve(req))
    ensures AllSound(Apply(sessions, Reserve(req)).0)
  {
    var s := SessionOf(sessions, req.sessionId);
    var isNew := ReserveAnswer(s, req).Ok? && req.reservationId !in s.reservations;
    assert Apply(sessions, Reserve(req)).0 == sessions[req.sessionId := if isNew then Charged(s, req) else s];
    assert Sound(req.sessionId, s) by {
      EmptySessionSound(req.sessionId);
    }
    if isNew {
      AdmissibleReserveSound(s, req);
    }
    OneSessionSound(sessions, req.sessionId, if isNew then Charged(s, req) else s);
  }

  lemma {:induction false} SettleStepSound(sessions: Sessions, res: Reservation, bytes: u64, elapsedMs: u64)
    requires AllSound(sessions) && Admissible(Settle(res, bytes, elapsedMs))
    ensures AllSound(Apply(sessions, Settle(res, bytes, elapsedMs)).0)
  {
    if res.sessionId in sessions && Opens(sessions[res.sessionId], res) {
      SettleSoundIff(res.sessionId, sessions[res.sessionId], res, bytes, elapsedMs);
      OneSessionSound(sessions, res.sessionId, Released(sessions[res.sessionId], res, bytes, elapsedMs));
    }
  }

  lemma {:induction false} AdmissibleStepSound(sessions: Sessions, op: Op)
    requires AllSound(sessions) && Admissible(op)
    ensures AllSound(Apply(sessions, op).0)
  {
    match op
    case Reserve(req) => ReserveStepSound(sessions, req);
    case Settle(res, bytes, elapsedMs) => SettleStepSound(sessions, res, bytes, elapsedMs);
    case Clear(_) =>
  }

  /**
   Conservation over every run of admissible calls: no counter saturates, and every session total is
   the sum of its destinations and the fold of its reservation records.
   */
  lemma {:induction false} Conservation(ops: seq<Op>)
    requires forall i :: 0 <= i < |ops| ==> Admissible(ops[i])
    ensures AllSound(Run(map[], ops))
    decreases |ops|
  {
    if ops != [] {
      Conservation(ops[..|ops| - 1]);
      AdmissibleStepSound(Run(map[], ops[..|ops| - 1]), ops[|ops| - 1]);
    }
  }

  // ---------- Caps ----------

  predicate Within(u: Usage, l: Limits) {
    && u.requests <= l.maxRequests
    && u.requestBytes <= l.maxRequestBytes
    && u.responseBytes + u.responseReserved <= l.maxResponseBytes
    && u.timeMs + u.timeReservedMs <= l.maxTimeMs
  }

  /** Every reservation of the run carries the same session limits and the same limits per destination. */
  predicate UsesLimits(op: Op, l: Limits, ds: map<string, Limits>) {
    op.Reserve? ==>
      && op.request.sessionLimits == l
      && op.request.destinationId in ds
      && op.request.destinationLimits == ds[op.request.destinationId]
  }

  predicate SessionWithin(s: SessionUsage, l: Limits, ds: map<string, Limits>) {
    && Within(s.total, l)
    && (forall d :: d in s.destinations ==> d in ds && Within(s.destinations[d], ds[d]))
  }

  ghost predicate AllWithin(sessions: Sessions, l: Limits, ds: map<string, Limits>) {
    forall id :: id in sessions ==> SessionWithin(sessions[id], l, ds)
  }

  lemma {:induction false} ReservedWithin(u: Usage, l: Limits, req: Request)
    requires ValidateReservation(u, l, req.requestBytes, req.responseReserved, req.timeReservedMs) == None
    requires FitsRange(u, req)
    ensures Within(ReserveUsage(u, req.requestBytes, req.responseReserved, req.timeReservedMs), l)
  {
  }

  lemma {:induction false} ReserveWithin(id: string, s: SessionUsage, req: Request, ds: map<string, Limits>)
    requires Sound(id, s) && req.sessionId == id && FitsRange(s.total, req)
    requires SessionWithin(s, req.sessionLimits, ds) && UsesLimits(Reserve(req), req.sessionLimits, ds)
    requires req.reservationId !in s.reservations && ReserveAnswer(s, req).Ok?
    ensures SessionWithin(Charged(s, req), req.sessionLimits, ds)
  {
    ReservedWithin(s.total, req.sessionLimits, req);
    var usage := DestinationOf(s, req.destinationId);
    assert FitsRange(usage, req) by {
      if req.destinationId in s.destinations {
        DestinationWithinTotal(id, s, req.destinationId);
      }
    }
    ReservedWithin(usage, req.destinationLimits, req);
  }

  /** The settled bytes fit under the cap beside everything else used and reserved. */
  predicate SettlesUnder(u: Usage, res: Reservation, bytes: u64, cap: u64) {
    u.responseBytes + u.responseReserved + bytes <= cap + res.responseReserved
  }

  lemma {:induction false} SettledWithinIff(u: Usage, res: Reservation, bytes: u64, elapsedMs: u64, l: Limits)
    requires Within(u, l) && u.responseBytes + bytes <= U64_MAX
    requires res.responseReserved <= u.responseReserved && res.timeReservedMs <= u.timeReservedMs
    ensures Within(SettleUsage(u, res.responseReserved, res.timeReservedMs, bytes, elapsedMs), l)
            <==> SettlesUnder(u, res, bytes, l.maxResponseBytes)
  {
  }

  /**
   `settle` does not clamp response bytes: a settlement keeps every cap, and the book sound, exactly when the
   bytes fit under the session's cap and under the destination's.
   */
  lemma {:induction false} SettleKeepsCapsIff(
    id: string, s: SessionUsage, res: Reservation, bytes: u64, elapsedMs: u64, l: Limits, ds: map<string, Limits>)
    requires Sound(id, s) && Opens(s, res) && SessionWithin(s, l, ds)
    ensures res.destinationId in s.destinations && res.destinationId in ds
    ensures var s' := Released(s, res, bytes, elapsedMs);
            var fits := && SettlesUnder(s.total, res, bytes, l.maxResponseBytes)
                        && SettlesUnder(s.destinations[res.destinationId], res, bytes,
                                        ds[res.destinationId].maxResponseBytes);
            && (Sound(id, s') && SessionWithin(s', l, ds) <==> fits)
            && (l.maxResponseBytes < U64_MAX ==> (SessionWithin(s', l, ds) <==> fits))
  {
    OpenRecordWithinUsages(id, s, res);
    DestinationWithinTotal(id, s, res.destinationId);
    SettleSoundIff(id, s, res, bytes, elapsedMs);
    if s.total.responseBytes + bytes <= U64_MAX {
      SettledWithinIff(s.total, res, bytes, elapsedMs, l);
      SettledWithinIff(s.destinations[res.destinationId], res, bytes, elapsedMs, ds[res.destinationId]);
    }
  }

  lemma {:induction false} ReserveStepWithin(sessions: Sessions, req: Request, ds: map<string, Limits>)
    requires AllSound(sessions) && AllWithin(sessions, req.sessionLimits, ds)
    requires Admissible(Reserve(req)) && UsesLimits(Reserve(req), req.sessionLimits, ds)
    ensures AllWithin(Apply(sessions, Reserve(req)).0, req.sessionLimits, ds)
  {
    var s := SessionOf(sessions, req.sessionId);
    assert Sound(req.sessionId, s) by {
      EmptySessionSound(req.sessionId);
    }
    if ReserveAnswer(s, req).Ok? && req.reservationId !in s.reservations {
      BelowMaxFits(s.total, req.sessionLimits, req);
      ReserveWithin(req.sessionId, s, req, ds);
    }
  }

  lemma {:induction false} StepWithin(sessions: Sessions, op: Op, l: Limits, ds: map<string, Limits>)
    requires AllSound(sessions) && AllWithin(sessions, l, ds)
    requires Admissible(op) && UsesLimits(op, l, ds)
    ensures AllWithin(Apply(sessions, op).0, l, ds)
  {
    match op
    case Reserve(req) =>
      ReserveStepWithin(sessions, req, ds);
    case Settle(res, bytes, elapsed) =>
      if res.sessionId in sessions && Opens(sessions[res.sessionId], res) {
        var s := sessions[res.sessionId];
        SettleKeepsCapsIff(res.sessionId, s, res, bytes, elapsed, l, ds);
        assert SessionWithin(Released(s, res, bytes, elapsed), l, ds);
      }
    case Clear(_) =>
  }

  /** Under fixed limits, used plus reserved never exceeds a cap, for any session or destination. */
  lemma {:induction false} CapsHold(ops: seq<Op>, l: Limits, ds: map<string, Limits>)
    requires forall i :: 0 <= i < |ops| ==> Admissible(ops[i]) && UsesLimits(ops[i], l, ds)
    ensures AllWithin(Run(map[], ops), l, ds)
    decreases |ops|
  {
    if ops != [] {
      var before := ops[..|ops| - 1];
      CapsHold(before, l, ds);
      Conservation(before);
      StepWithin(Run(map[], before), ops[|ops| - 1], l, ds);
    }
  }

  /** An accepted reservation keeps every cap, and the book sound, exactly when it fits the u64 range. */
  lemma {:induction false} ReserveKeepsCapsIff(id: string, s: SessionUsage, req: Request, ds: map<string, Limits>)
    requires Sound(id, s) && req.sessionId == id
    requires SessionWithin(s, req.sessionLimits, ds) && UsesLimits(Reserve(req), req.sessionLimits, ds)
    requires req.reservationId !in s.reservations && ReserveAnswer(s, req).Ok?
    ensures Sound(id, Charged(s, req)) && SessionWithin(Charged(s, req), req.sessionLimits, ds)
            <==> FitsRange(s.total, req)
  {
    ReserveSoundIff(id, s, req);
    if FitsRange(s.total, req) {
      ReserveWithin(id, s, req, ds);
    }
  }

  /** The cap does break: eleven bytes settled against a reservation, and a cap, of ten. */
  lemma {:induction false} OverSettlementBreaksCap()
    ensures exists ops: seq<Op>, l: Limits, ds: map<string, Limits> ::
              && (forall i :: 0 <= i < |ops| ==> UsesLimits(ops[i], l, ds))
              && "s" in Run(map[], ops)
              && !SessionWithin(Run(map[], ops)["s"], l, ds)
  {
    var l := Limits(5, 5, 10, 5);
    var ds := map["d" := l];
    var req := Request("r", "s", "d", 1, 10, 1, l, l);
    var first, second := Reserve(req), Settle(ReservationFor(req), 11, 1);
    var ops := [first, second];
    assert ops[..1] == [first] && ops[..1][..0] == [];
    var one := Run(map[], ops[..1]);
    assert one == Apply(Run(map[], []), first).0;
    assert one["s"] == Charged(NO_SESSION, req);
    var two := Run(map[], ops);
    assert two == Apply(one, second).0;
    assert Opens(one["s"], ReservationFor(req));
    assert two["s"].total.responseBytes == 11;
    assert !SessionWithin(two["s"], l, ds);
  }

  /** And so does a cap at the u64 maximum, with every settlement within its reservation: the check saturates. */
  lemma {:induction false} MaxCapBreaks()
    ensures exists ops: seq<Op>, l: Limits, ds: map<string, Limits> ::
              && (forall i :: 0 <= i < |ops| ==> UsesLimits(ops[i], l, ds))
              && (forall i :: 0 <= i < |ops| && ops[i].Settle? ==> ops[i].bytes <= ops[i].reservation.responseReserved)
              && "s" in Run(map[], ops)
              && !SessionWithin(Run(map[], ops)["s"], l, ds)
  {
    var l := Limits(5, 5, U64_MAX, 5);
    var ds := map["d" := l];
    var req, again := Request("r", "s", "d", 1, U64_MAX, 1, l, l), Request("q", "s", "d", 1, 1, 1, l, l);
    var first, second, third := Reserve(req), Settle(ReservationFor(req), U64_MAX, 1), Reserve(again);
    var ops := [first, second, third];
    assert ops[..2] == [first, second] && ops[..2][..1] == [first] && [first][..0] == [];
    var one := Apply(Run(map[], []), first).0;
    assert one == Run(map[], [first]) && one["s"] == Charged(NO_SESSION, req);
    var two := Apply(one, second).0;
    assert two == Run(map[], ops[..2]) && two["s"] == Released(one["s"], ReservationFor(req), U64_MAX, 1);
    var three := Apply(two, third).0;
    assert three == Run(map[], ops) && three["s"] == Charged(two["s"], again);
    assert !SessionWithin(three["s"], l, ds);
  }

  // ---------- Acceptance is exact ----------

  predicate FitsCaps(u: Usage, l: Limits, req: Request) {
    && u.requests < l.maxRequests
    && u.requestBytes + req.requestBytes <= l.maxRequestBytes
    && u.responseBytes + u.responseReserved + req.responseReserved <= l.maxResponseBytes
    && u.timeMs + u.timeReservedMs + req.timeReservedMs <= l.maxTimeMs
  }

  /** A first request is accepted exactly when, in unbounded arithmetic, it fits both sets of caps. */
  lemma {:induction false} ReserveAcceptsIffFits(s: SessionUsage, req: Request)
    requires req.reservationId !in s.reservations
    requires CapsBelowMax(req.sessionLimits) && CapsBelowMax(req.destinationLimits)
    ensures ReserveAnswer(s, req).Ok? <==>
              && FitsCaps(s.total, req.sessionLimits, req)
              && FitsCaps(DestinationOf(s, req.destinationId), req.destinationLimits, req)
  {
  }

  // ---------- No half-applied call ----------

  ghost predicate AllFiled(sessions: Sessions) {
    forall id :: id in sessions ==> Filed(id, sessions[id])
  }

  lemma {:induction false} CallKeepsFiled(sessions: Sessions, op: Op)
    requires AllFiled(sessions)
    ensures AllFiled(Apply(sessions, op).0)
  {
  }

  /** Records stay filed with a destination usage on every run, whatever the arguments were. */
  lemma {:induction false} RecordsStayFiled(sessions: Sessions, ops: seq<Op>)
    requires AllFiled(sessions)
    ensures AllFiled(Run(sessions, ops))
    decreases |ops|
  {
    if ops != [] {
      RecordsStayFiled(sessions, ops[..|ops| - 1]);
      CallKeepsFiled(Run(sessions, ops[..|ops| - 1]), ops[|ops| - 1]);
    }
  }

  /** The path that updates the session total and then misses the destination is unreachable. */
  lemma {:induction false} NeverHalfSettled(ops: seq<Op>, res: Reservation, bytes: u64, elapsedMs: u64)
    ensures Apply(Run(map[], ops), Settle(res, bytes, elapsedMs)).1 != Refused(DESTINATION_MISSING)
  {
    RecordsStayFiled(map[], ops);
  }

  // ---------- Repeats ----------

  predicate Has(sessions: Sessions, sid: string, rid: string) {
    sid in sessions && rid in sessions[sid].reservations
  }

  function RecordOf(sessions: Sessions, sid: string, rid: string): Record
    requires Has(sessions, sid, rid)
  {
    sessions[sid].reservations[rid]
  }

  /** A record outlives every call but a clear of its session; once settled it never changes. */
  lemma {:induction false} RecordPersists(sessions: Sessions, ops: seq<Op>, sid: string, rid: string)
    requires Has(sessions, sid, rid)
    requires forall i :: 0 <= i < |ops| ==> ops[i] != Clear(sid)
    ensures Has(Run(sessions, ops), sid, rid)
    ensures var before, after := RecordOf(sessions, sid, rid), RecordOf(Run(sessions, ops), sid, rid);
            && after.reservation == before.reservation
            && after.requestBytes == before.requestBytes
            && (before.settled ==> after == before)
    decreases |ops|
  {
    if ops != [] {
      RecordPersists(sessions, ops[..|ops| - 1], sid, rid);
    }
  }

  /** Repeating an accepted reservation, however much later, answers the same and changes nothing. */
  lemma {:induction false} ReserveRepeats(sessions: Sessions, req: Request, ops: seq<Op>)
    requires Apply(sessions, Reserve(req)).1.Reserved?
    requires forall i :: 0 <= i < |ops| ==> ops[i] != Clear(req.sessionId)
    ensures var later := Run(Apply(sessions, Reserve(req)).0, ops);
            Apply(later, Reserve(req)) == (later, Apply(sessions, Reserve(req)).1)
  {
    var first := Apply(sessions, Reserve(req)).0;
    RecordPersists(first, ops, req.sessionId, req.reservationId);
    var later := Run(first, ops);
    assert later[req.sessionId := later[req.sessionId]] == later;
  }

  /** A reservation id is answered again exactly to the same request; to any other it is a collision. */
  lemma {:induction false} RepeatsIff(sessions: Sessions, req: Request)
    requires AllFiled(sessions) && Has(sessions, req.sessionId, req.reservationId)
    ensures var record := RecordOf(sessions, req.sessionId, req.reservationId);
            var same := record.reservation == Reservation(req.reservationId, req.sessionId, req.destinationId,
                                                          req.responseReserved, req.timeReservedMs)
                        && record.requestBytes == req.requestBytes;
            Apply(sessions, Reserve(req))
            == (sessions, if same then Reserved(record.reservation) else Refused(COLLISION))
  {
    assert sessions[req.sessionId := sessions[req.sessionId]] == sessions;
  }

  /** Repeating a successful settlement, however much later, succeeds and changes nothing. */
  lemma {:induction false} SettleRepeats(sessions: Sessions, res: Reservation, bytes: u64, elapsedMs: u64, ops: seq<Op>)
    requires Apply(sessions, Settle(res, bytes, elapsedMs)).1 == Done
    requires forall i :: 0 <= i < |ops| ==> ops[i] != Clear(res.sessionId)
    ensures var later := Run(Apply(sessions, Settle(res, bytes, elapsedMs)).0, ops);
            Apply(later, Settle(res, bytes, elapsedMs)) == (later, Done)
  {
    var first := Apply(sessions, Settle(res, bytes, elapsedMs)).0;
    RecordPersists(first, ops, res.sessionId, res.reservationId);
    var later := Run(first, ops);
    assert later[res.sessionId := later[res.sessionId]] == later;
  }
}
