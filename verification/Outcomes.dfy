/** How the agent reads the end of one HTTP attempt. */
module Outcomes {

  /** `NoAnswer` is an httpx error: refused, reset, timed out, response lost. */
  datatype Answer = NoAnswer | Status(code: int)

  datatype Outcome = Shipped | Retry | Poison

  const POISON_STATUSES := {400, 404, 413, 422}

  predicate IsSuccess(code: int) {
    200 <= code <= 299
  }

  function OutcomeOf(a: Answer): Outcome {
    match a
    case NoAnswer => Retry
    case Status(code) =>
      if IsSuccess(code) then Shipped else if code in POISON_STATUSES then Poison else Retry
  }

  /** What each end of an attempt comes to, by the numbers: a status from 200 to 299 means that the batch is
      with the server, 400, 404, 413 and 422 that it will never be, and anything else, a redirect for
      instance, that it has to be tried again. */
  lemma OutcomesByStatus(a: Answer)
    ensures OutcomeOf(a) == Shipped <==> a.Status? && 200 <= a.code <= 299
    ensures OutcomeOf(a) == Poison <==> a.Status? && (a.code == 400 || a.code == 404 || a.code == 413 || a.code == 422)
    ensures OutcomeOf(a) == Retry
            <==> a == NoAnswer || !(200 <= a.code <= 299 || a.code in {400, 404, 413, 422})
  {
  }
}
