/** Vocabulary shared by the feedback components. */
module Feedback {
  import opened Common

  /** Analyst verdict corrections. `OtherText` is any text outside the enumeration; such
      texts are only ever compared, so they are represented by numbers. */
  datatype Correction =
    | FalsePositive | ConfirmedClean | BenignAnomaly | NeedsEscalation
    | ConfirmedSuspicious | FalseNegative | ConfirmedMalicious
    | OtherText(text: nat)

  datatype Caller = Caller(role: string, tenant: Uuid, analyst: string)

  predicate IsAdmin(c: Caller) {
    var role := Upper(c.role);
    role == "ADMIN" || role == "SUPER_ADMIN" || role == "LEAD_SOC_ADMIN"
  }
}
