/**
 The store of durable mutation effects: a record is claimed once, and leaves `Started` at most once.
 */
module EgressEffects {
  import opened Common
  import opened EgressErrors
  import opened EgressPrepare

  datatype Status = Started | Succeeded | Failed | Uncertain

  predicate Terminal(s: Status) {
    s != Started
  }

  datatype Ending = Ending(
    status: Status, resultDigest: Option<Digest>, resultBytes: Option<nat>,
    errorCode: Option<string>, errorDigest: Option<Digest>)

  datatype Record = Record(intent: Intent, ending: Ending)

  const OPEN := Ending(Started, None, None, None, None)

  type Effects = map<Digest, Record>

  datatype Claim = Claim(record: Record, created: bool)

  const ID_COLLISION := Durability("egress mutation effect id collision")
  const NOT_TERMINAL := Durability("egress mutation terminal status required")
  const NOT_PERSISTED := Durability("egress mutation effect was not persisted")
  const ENDED_DIFFERENTLY := Durability("egress mutation already has a different terminal state")

  /** The answer to claiming `intent`. */
  function BeginAnswer(effects: Effects, intent: Intent): Result<Claim, EgressError> {
    if intent.effectId !in effects then Ok(Claim(Record(intent, OPEN), true))
    else if effects[intent.effectId].intent != intent then Err(ID_COLLISION)
    else Ok(Claim(effects[intent.effectId], false))
  }

  function Begun(effects: Effects, intent: Intent): Effects {
    if intent.effectId in effects then effects else effects[intent.effectId := Record(intent, OPEN)]
  }

  /** The answer to ending the effect `id` with `ending`. */
  function FinishAnswer(effects: Effects, id: Digest, ending: Ending): Result<Record, EgressError> {
    if !Terminal(ending.status) then Err(NOT_TERMINAL)
    else if id !in effects then Err(NOT_PERSISTED)
    else if Terminal(effects[id].ending.status) && effects[id].ending != ending then Err(ENDED_DIFFERENTLY)
    else Ok(Record(effects[id].intent, ending))
  }

  function Finished(effects: Effects, id: Digest, ending: Ending): Effects {
    if FinishAnswer(effects, id, ending).Ok? then effects[id := Record(effects[id].intent, ending)] else effects
  }

  class EffectStore {
    var effects: Effects

    constructor ()
      ensures effects == map[]
    {
      effects := map[];
    }

    method BeginMutation(intent: Intent) returns (r: Result<Claim, EgressError>)
      modifies this
      ensures r == BeginAnswer(old(effects), intent)
      ensures effects == Begun(old(effects), intent)
      ensures r.Ok? ==>
        && r.value.created == (intent.effectId !in old(effects))
        && r.value.record == effects[intent.effectId]
    {
      if intent.effectId in effects {
        var existing := effects[intent.effectId];
        if existing.intent != intent {
          return Err(ID_COLLISION);
        }
        return Ok(Claim(existing, false));
      }
      var record := Record(intent, OPEN);
      effects := effects[intent.effectId := record];
      return Ok(Claim(record, true));
    }

    /** Whatever the answer, an existing record ends up terminal if the requested ending is. */
    method FinishMutation(id: Digest, ending: Ending) returns (r: Result<Record, EgressError>)
      modifies this
      ensures r == FinishAnswer(old(effects), id, ending)
      ensures effects == Finished(old(effects), id, ending)
      ensures Terminal(ending.status) && id in old(effects) ==> id in effects && Terminal(effects[id].ending.status)
      ensures forall e :: e in old(effects) && Terminal(old(effects)[e].ending.status) ==>
                e in effects && effects[e] == old(effects)[e]
    {
      if !Terminal(ending.status) {
        return Err(NOT_TERMINAL);
      }
      if id !in effects {
        return Err(NOT_PERSISTED);
      }
      var record := effects[id];
      var requested := Record(record.intent, ending);
      if Terminal(record.ending.status) {
        if record == requested {
          assert effects == effects[id := requested];
          return Ok(record);
        }
        return Err(ENDED_DIFFERENTLY);
      }
      effects := effects[id := requested];
      return Ok(requested);
    }
  }
}
