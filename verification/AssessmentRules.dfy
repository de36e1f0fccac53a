/** `assessment/rules.py` and the two status vocabularies of `core/models/enums.py`. */
module AssessmentRules {

  datatype AssessmentStatus = PASS | WARNING | FAIL | UNKNOWN | NOT_ASSESSED

  datatype Severity = CRITICAL | HIGH | MEDIUM | LOW | INFO

  function ComputeOverallStatus(statuses: seq<AssessmentStatus>): AssessmentStatus {
    if FAIL in statuses then FAIL
    else if WARNING in statuses then WARNING
    else if UNKNOWN in statuses then UNKNOWN
    else if forall s :: s in statuses ==> s == NOT_ASSESSED then UNKNOWN
    else PASS
  }

  /** Badness of a status that takes part in the vote. */
  function Badness(s: AssessmentStatus): int {
    match s
    case FAIL => 3
    case WARNING => 2
    case UNKNOWN => 1
    case PASS => 0
    case NOT_ASSESSED => -1
  }

  /** The overall status is the worst one that was assessed, and UNKNOWN when none was; the
      categories that were not assessed never change it. */
  lemma OverallIsWorst(statuses: seq<AssessmentStatus>)
    ensures var r := ComputeOverallStatus(statuses);
            if forall s :: s in statuses ==> s == NOT_ASSESSED then r == UNKNOWN
            else r in statuses && forall s :: s in statuses ==> Badness(s) <= Badness(r)
  {
    if s :| s in statuses && s != NOT_ASSESSED {
      assert s in {PASS, WARNING, FAIL, UNKNOWN};
    }
  }

  function ExecutionHealthStatus(attempted: nat, transportFailed: nat, checkFailed: nat): AssessmentStatus {
    if attempted == 0 then UNKNOWN
    else if transportFailed == attempted then FAIL
    else if transportFailed > 0 || checkFailed > 0 then WARNING
    else PASS
  }
}
