/**
 The session budget book of the egress boundary: amounts are reserved before a hop and settled
 after it, in u64 counters that saturate, at session level and at destination level.

 `BudgetBook` is the mutable book. `Apply` is the effect of one call on the book's contents, and the
 theorems range over every sequence of calls. The partner of the counters is in `EgressLedger`: the
 exact, unbounded sum of what the reservation records themselves say.
 */
module EgressBudget {
  import opened Common
  import opened EgressErrors

  datatype Usage = Usage(
    requests: u64, requestBytes: u64, responseBytes: u64,
    responseReserved: u64, timeMs: u64, timeReservedMs: u64)

  datatype Limits = Limits(
    maxRequests: u64, maxRequestBytes: u64, maxResponseBytes: u64, maxTimeMs: u64)

  datatype Request = Request(
    reservationId: string, sessionId: string, destinationId: string,
    requestBytes: u64, responseReserved: u64, timeReservedMs: u64,
    sessionLimits: Limits, destinationLimits: Limits)

  datatype Reservation = Reservation(
    reservationId: string, sessionId: string, destinationId: string,
    responseReserved: u64, timeReservedMs: u64)

  datatype Record = Record(
    reservation: Reservation, requestBytes: u64,
    settled: bool, responseBytes: u64, elapsedMs: u64)

  datatype SessionUsage = SessionUsage(
    total: Usage, destinations: map<string, Usage>, reservations: map<string, Record>)

  type Sessions = map<string, SessionUsage>

  const NO_USAGE := Usage(0, 0, 0, 0, 0, 0)
  const NO_SESSION := SessionUsage(NO_USAGE, map[], map[])

  const COLLISION := Durability("egress budget reservation id collision")
  const SESSION_MISSING := Durability("egress budget session reservation is missing")
  const RESERVATION_MISSING := Durability("egress budget reservation is missing")
  const SETTLEMENT_COLLISION := Durability("egress budget settlement collision")
  const SETTLED_DIFFERENTLY := Durability("egress budget reservation already settled differently")
  const DESTINATION_MISSING := Durability("egress destination usage is missing")

  // ---------- One call ----------

  function ValidateReservation(
    u: Usage, limits: Limits, requestBytes: u64, responseReserved: u64, timeReservedMs: u64)
    : (r: Option<EgressError>)
  {
    if u.requests >= limits.maxRequests then
      Some(Budget("session request cap"))
    else if SatAdd(u.requestBytes, requestBytes) > limits.maxRequestBytes then
      Some(Budget("session request-byte cap"))
    else if SatAdd(SatAdd(u.responseBytes, u.responseReserved), responseReserved)
            > limits.maxResponseBytes then
      Some(Budget("session response-byte cap"))
    else if SatAdd(SatAdd(u.timeMs, u.timeReservedMs), timeReservedMs) > limits.maxTimeMs then
      Some(Budget("session time cap"))
    else
      None
  }

  function ReserveUsage(u: Usage, requestBytes: u64, responseReserved: u64, timeReservedMs: u64): Usage {
    u.(requests := SatAdd(u.requests, 1),
       requestBytes := SatAdd(u.requestBytes, requestBytes),
       responseReserved := SatAdd(u.responseReserved, responseReserved),
       timeReservedMs := SatAdd(u.timeReservedMs, timeReservedMs))
  }

  function SettleUsage(
    u: Usage, responseReserved: u64, timeReservedMs: u64, responseBytes: u64, elapsedMs: u64): Usage
  {
    u.(responseReserved := SatSub(u.responseReserved, responseReserved),
       timeReservedMs := SatSub(u.timeReservedMs, timeReservedMs),
       responseBytes := SatAdd(u.responseBytes, responseBytes),
       timeMs := SatAdd(u.timeMs, Min(elapsedMs, timeReservedMs)))
  }

  function SessionOf(sessions: Sessions, id: string): SessionUsage {
    if id in sessions then sessions[id] else NO_SESSION
  }

  function DestinationOf(s: SessionUsage, id: string): Usage {
    if id in s.destinations then s.destinations[id] else NO_USAGE
  }

  function ReservationFor(req: Request): Reservation {
    Reservation(req.reservationId, req.sessionId, req.destinationId,
                req.responseReserved, req.timeReservedMs)
  }

  predicate Matches(record: Record, req: Request) {
    && record.reservation.sessionId == req.sessionId
    && record.reservation.destinationId == req.destinationId
    && record.reservation.responseReserved == req.responseReserved
    && record.reservation.timeReservedMs == req.timeReservedMs
    && record.requestBytes == req.requestBytes
  }

  /** The answer a session in state `s` gives to `req`. */
  function ReserveAnswer(s: SessionUsage, req: Request): Result<Reservation, EgressError> {
    if req.reservationId in s.reservations then
      if Matches(s.reservations[req.reservationId], req)
      then Ok(s.reservations[req.reservationId].reservation)
      else Err(COLLISION)
    else
      var bySession := ValidateReservation(
        s.total, req.sessionLimits, req.requestBytes, req.responseReserved, req.timeReservedMs);
      var byDestination := ValidateReservation(
        DestinationOf(s, req.destinationId), req.destinationLimits,
        req.requestBytes, req.responseReserved, req.timeReservedMs);
      if bySession.Some? then Err(bySession.value)
      else if byDestination.Some? then Err(byDestination.value)
      else Ok(ReservationFor(req))
  }

  /** `s` after a first, accepted `req`: both counters charged and an open record added. */
  function Charged(s: SessionUsage, req: Request): SessionUsage {
    SessionUsage(
      ReserveUsage(s.total, req.requestBytes, req.responseReserved, req.timeReservedMs),
      s.destinations[req.destinationId :=
        ReserveUsage(DestinationOf(s, req.destinationId),
                     req.requestBytes, req.responseReserved, req.timeReservedMs)],
      s.reservations[req.reservationId :=
        Record(ReservationFor(req), req.requestBytes, false, 0, 0)])
  }

  /** The answer to settling `res` in session state `s`. */
  function SettleAnswer(s: SessionUsage, res: Reservation, bytes: u64, elapsedMs: u64)
    : Result<(), EgressError>
  {
    if res.reservationId !in s.reservations then Err(RESERVATION_MISSING)
    else
      var record := s.reservations[res.reservationId];
      if record.reservation != res then Err(SETTLEMENT_COLLISION)
      else if record.settled then
        if record.responseBytes == bytes && record.elapsedMs == elapsedMs then Ok(())
        else Err(SETTLED_DIFFERENTLY)
      else if res.destinationId !in s.destinations then Err(DESTINATION_MISSING)
      else Ok(())
  }

  /** True when the call reaches the counters: the record is there, is `res`, and is open. */
  predicate Opens(s: SessionUsage, res: Reservation) {
    && res.reservationId in s.reservations
    && s.reservations[res.reservationId].reservation == res
    && !s.reservations[res.reservationId].settled
  }

  /** `s` after settling an open `res`; with no destination usage only the total has moved. */
  function Released(s: SessionUsage, res: Reservation, bytes: u64, elapsedMs: u64): SessionUsage
    requires Opens(s, res)
  {
    var half := s.(total := SettleUsage(s.total, res.responseReserved, res.timeReservedMs, bytes, elapsedMs));
    if res.destinationId !in s.destinations then half
    else
      half.(
        destinations := s.destinations[res.destinationId :=
          SettleUsage(s.destinations[res.destinationId],
                      res.responseReserved, res.timeReservedMs, bytes, elapsedMs)],
        reservations := s.reservations[res.reservationId :=
          s.reservations[res.reservationId].(settled := true, responseBytes := bytes, elapsedMs := elapsedMs)])
  }

  // ---------- Runs ----------

  datatype Op =
    | Reserve(request: Request)
    | Settle(reservation: Reservation, bytes: u64, elapsedMs: u64)
    | Clear(sessionId: string)

  datatype Answer = Reserved(reservation: Reservation) | Done | Refused(error: EgressError)

  /** The book and the answer after one call. A refused `reserve` still leaves an empty session. */
  function Apply(sessions: Sessions, op: Op): (Sessions, Answer) {
    match op
    case Reserve(req) =>
      var s := SessionOf(sessions, req.sessionId);
      var answer := ReserveAnswer(s, req);
      var s' := if answer.Ok? && req.reservationId !in s.reservations then Charged(s, req) else s;
      (sessions[req.sessionId := s'],
       if answer.Ok? then Reserved(answer.value) else Refused(answer.error))
    case Settle(res, bytes, elapsed) =>
      if res.sessionId !in sessions then (sessions, Refused(SESSION_MISSING))
      else
        var s := sessions[res.sessionId];
        var answer := SettleAnswer(s, res, bytes, elapsed);
        var s' := if Opens(s, res) then Released(s, res, bytes, elapsed) else s;
        (sessions[res.sessionId := s'], if answer.Ok? then Done else Refused(answer.error))
    case Clear(id) => (sessions - {id}, Done)
  }

  function Run(sessions: Sessions, ops: seq<Op>): Sessions
    decreases |ops|
  {
    if ops == [] then sessions else Apply(Run(sessions, ops[..|ops| - 1]), ops[|ops| - 1]).0
  }

  /** The mutable book. */
  class BudgetBook {
    var sessions: Sessions

    constructor ()
      ensures sessions == map[]
    {
      sessions := map[];
    }

    method ReserveBudget(req: Request) returns (r: Result<Reservation, EgressError>)
      modifies this
      ensures sessions == Apply(old(sessions), Reserve(req)).0
      ensures Apply(old(sessions), Reserve(req)).1
              == if r.Ok? then Reserved(r.value) else Refused(r.error)
    {
      var usage := SessionOf(sessions, req.sessionId);
      sessions := sessions[req.sessionId := usage];
      if req.reservationId in usage.reservations {
        var existing := usage.reservations[req.reservationId];
        return if Matches(existing, req) then Ok(existing.reservation) else Err(COLLISION);
      }
      var destinationUsage := DestinationOf(usage, req.destinationId);
      var refused := ValidateReservation(
        usage.total, req.sessionLimits, req.requestBytes, req.responseReserved, req.timeReservedMs);
      if refused.Some? {
        return Err(refused.value);
      }
      refused := ValidateReservation(
        destinationUsage, req.destinationLimits, req.requestBytes, req.responseReserved, req.timeReservedMs);
      if refused.Some? {
        return Err(refused.value);
      }
      usage := usage.(total := ReserveUsage(
        usage.total, req.requestBytes, req.responseReserved, req.timeReservedMs));
      usage := usage.(destinations := usage.destinations[req.destinationId := ReserveUsage(
        destinationUsage, req.requestBytes, req.responseReserved, req.timeReservedMs)]);
      var reservation := ReservationFor(req);
      usage := usage.(reservations := usage.reservations[req.reservationId :=
        Record(reservation, req.requestBytes, false, 0, 0)]);
      sessions := sessions[req.sessionId := usage];
      return Ok(reservation);
    }

    method SettleBudget(res: Reservation, bytes: u64, elapsedMs: u64) returns (r: Result<(), EgressError>)
      modifies this
      ensures sessions == Apply(old(sessions), Settle(res, bytes, elapsedMs)).0
      ensures Apply(old(sessions), Settle(res, bytes, elapsedMs)).1
              == if r.Ok? then Done else Refused(r.error)
    {
      if res.sessionId !in sessions {
        return Err(SESSION_MISSING);
      }
      var session := sessions[res.sessionId];
      if res.reservationId !in session.reservations {
        return Err(RESERVATION_MISSING);
      }
      var record := session.reservations[res.reservationId];
      if record.reservation != res {
        return Err(SETTLEMENT_COLLISION);
      }
      if record.settled {
        return if record.responseBytes == bytes && record.elapsedMs == elapsedMs
          then Ok(()) else Err(SETTLED_DIFFERENTLY);
      }
      session := session.(total := SettleUsage(
        session.total, res.responseReserved, res.timeReservedMs, bytes, elapsedMs));
      if res.destinationId !in session.destinations {
        sessions := sessions[res.sessionId := session];
        return Err(DESTINATION_MISSING);
      }
      session := session.(destinations := session.destinations[res.destinationId := SettleUsage(
        session.destinations[res.destinationId], res.responseReserved, res.timeReservedMs, bytes, elapsedMs)]);
      record := record.(settled := true, responseBytes := bytes, elapsedMs := elapsedMs);
      session := session.(reservations := session.reservations[res.reservationId := record]);
      sessions := sessions[res.sessionId := session];
      return Ok(());
    }

    method ClearSession(id: string)
      modifies this
      ensures sessions == Apply(old(sessions), Clear(id)).0
    {
      sessions := sessions - {id};
    }
  }
}
