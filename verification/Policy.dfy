/** internal/router/policy.go: what the attempt loop may do about a failure, and whether the
    failure says anything about the provider. */
module Policy {
  import opened Common

  datatype Disposition = Fail | Retry | Failover

  function ClassDisposition(c: ErrorClass): Disposition {
    match c
    case InvalidRequest => Fail
    case Canceled => Fail
    case Upstream => Retry
    case Timeout => Retry
    case _ => Failover
  }

  predicate CountsAgainstHealth(c: ErrorClass) {
    c != InvalidRequest && c != Canceled && c != ModelNotFound
  }

  /** A failure the loop gives up on never trips a breaker; one it retries always counts. */
  lemma DispositionsAgree(c: ErrorClass)
    ensures ClassDisposition(c).Fail? ==> !CountsAgainstHealth(c)
    ensures ClassDisposition(c).Retry? ==> CountsAgainstHealth(c)
    ensures !CountsAgainstHealth(c) <==> ClassDisposition(c).Fail? || c == ModelNotFound
  {
  }
}
