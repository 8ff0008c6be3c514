/** The conditional edges' routing functions (src/orchestrator/routers.py). */
module Routers {
  import opened Domain
  import opened HealingState

  function RouteAfterFix(s: State): RoutingDecision {
    if s.patch.Some? then ToValidation else ToRollback
  }

  function RouteAfterValidate(s: State): RoutingDecision {
    if s.regressionDetected then ToRollback
    else if Green(s.sandboxResult) then ToImmunize
    else if s.postSignature.Some? && !Matches(s.postSignature.value, s.signature) then ToImmunize
    else ToRollback
  }

  function RouteAfterCommit(s: State): RoutingDecision {
    if s.shouldContinue then ToFix else Finish
  }

  function RouteAfterRollback(s: State): RoutingDecision {
    if s.attemptCount < s.keys.maxRetries then ToFix else ToPostMortem
  }
}
