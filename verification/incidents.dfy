/** Incident participation records (app/models/incident.py) and the
    participant schema's outcome rule (app/schemas/incident.py). */
module Incidents {
  import opened Wrappers

  datatype Role = Perpetrator | Accomplice | Victim

  datatype VictimOutcome = Unharmed | Wounded | Killed

  /** A row of `incident_participants` (free-text notes left out). */
  datatype Participant = Participant(
    id: string,
    incidentId: string,
    memberId: string,
    role: Role,
    outcome: Option<VictimOutcome>)

  datatype OutcomeError = OutcomeRequired | OutcomeOnlyForVictims

  /** `validate_outcome`. The role is `None` when the role field itself
      failed validation, and is then treated like any non-victim role. */
  function ValidateOutcome(role: Option<Role>, v: Option<VictimOutcome>): (r: Result<Option<VictimOutcome>, OutcomeError>)
    ensures r.Success? ==> r.value == v
    ensures r.Success? <==> (v.Some? <==> role == Some(Victim))
    ensures role == Some(Victim) && v.None? ==> r == Failure(OutcomeRequired)
    ensures role != Some(Victim) && v.Some? ==> r == Failure(OutcomeOnlyForVictims)
  {
    if role == Some(Victim) && v.None? then Failure(OutcomeRequired)
    else if role != Some(Victim) && v.Some? then Failure(OutcomeOnlyForVictims)
    else Success(v)
  }

  /** A participant the schema accepts: an outcome exactly for victims. */
  predicate Accepted(p: Participant) {
    ValidateOutcome(Some(p.role), p.outcome).Success?
  }

  /** The `outcome` key of a request body: omitted, or given (possibly as
      an explicit null). */
  datatype OutcomeField = Omitted | Given(value: Option<VictimOutcome>)

  /** What the participant schema admits for `outcome`, as written. An
      omitted field takes its default `None` and pydantic does not run field
      validators on defaults, so `validate_outcome` is skipped; a given value
      is validated. */
  function AdmitOutcome(role: Option<Role>, f: OutcomeField): (r: Result<Option<VictimOutcome>, OutcomeError>)
    ensures f.Omitted? ==> r == Success(None)
    ensures f.Given? ==> (r.Success? <==> (f.value.Some? <==> role == Some(Victim)))
    ensures r.Success? && r.value.Some? ==> role == Some(Victim)
  {
    match f
    case Omitted => Success(None)
    case Given(v) => ValidateOutcome(role, v)
  }

  /** The discrepancy: a victim whose `outcome` key is omitted is admitted
      without an outcome, although the validator rejects a victim whose
      outcome is null. */
  lemma OmittedVictimOutcomeAdmitted()
    ensures AdmitOutcome(Some(Victim), Omitted) == Success(None)
    ensures ValidateOutcome(Some(Victim), None) == Failure(OutcomeRequired)
  {
  }

  /** The evidently intended admission: the validator also runs on the
      default, as pydantic does for a field declared with
      `validate_default=True`. */
  function AdmitOutcomeValidatingDefault(role: Option<Role>, f: OutcomeField): (r: Result<Option<VictimOutcome>, OutcomeError>)
    ensures r.Success? ==> (r.value.Some? <==> role == Some(Victim))
    ensures role == Some(Victim) && f.Omitted? ==> r == Failure(OutcomeRequired)
  {
    ValidateOutcome(role, if f.Omitted? then None else f.value)
  }

  /** With the validator run on defaults, omitting the key is the same as
      sending null, and every admitted participant has the shape `Accepted`
      describes. */
  lemma IntendedAdmissionMatchesAccepted(p: Participant, f: OutcomeField)
    requires f == Given(p.outcome) || (f.Omitted? && p.outcome.None?)
    ensures AdmitOutcomeValidatingDefault(Some(p.role), f).Success? <==> Accepted(p)
  {
  }
}
