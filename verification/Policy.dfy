/** The policy evaluator: a cascade of refusals in front of an approval gate. */
module Policy {
  import opened Domain

  /** Dependencies of each known target. */
  type Topology = map<string, seq<string>>

  function Evaluate(catalog: Catalog, topology: Topology, action: Action, environment: string, killSwitch: bool): Decision {
    if action.actionType !in catalog then Decision(action.id, Deny, "catalog/unknown-action")
    else
      var definition := catalog[action.actionType];
      if killSwitch then Decision(action.id, Deny, "safety/global-kill-switch")
      else if environment !in definition.environments then Decision(action.id, Deny, "scope/environment-allowlist")
      else if |definition.targets| > 0 && action.target !in definition.targets then
        Decision(action.id, Deny, "scope/target-allowlist")
      else if definition.risk == RISK_MEDIUM then EvaluateMedium(catalog, topology, action, definition)
      else if definition.risk == RISK_LOW then Decision(action.id, RequireApproval, "risk/low-requires-approval")
      else if definition.risk == RISK_HIGH then Decision(action.id, Deny, "risk/high-blocked-in-mvp")
      else Decision(action.id, Deny, "risk/unknown")
  }

  function EvaluateMedium(catalog: Catalog, topology: Topology, action: Action, definition: Definition): Decision {
    if action.target !in topology then Decision(action.id, Deny, "dependency/metadata-required")
    else if topology[action.target] == [] then Decision(action.id, Deny, "dependency/map-required")
    else if !definition.supportsRollback || definition.rollbackKey == "" then
      Decision(action.id, Deny, "safety/rollback-plan-required")
    else if definition.rollbackKey !in catalog then Decision(action.id, Deny, "safety/rollback-action-missing")
    else if !definition.executable then Decision(action.id, Deny, "risk/medium-disabled")
    else Decision(action.id, RequireApproval, "risk/medium-requires-approval")
  }

  /** What an action must satisfy to be put before an operator. */
  predicate Approvable(catalog: Catalog, topology: Topology, action: Action, environment: string) {
    && action.actionType in catalog
    && var definition := catalog[action.actionType];
       && environment in definition.environments
       && (definition.targets == [] || action.target in definition.targets)
       && (|| definition.risk == RISK_LOW
           || (&& definition.risk == RISK_MEDIUM
               && definition.executable
               && action.target in topology && topology[action.target] != []
               && definition.supportsRollback && definition.rollbackKey != "" && definition.rollbackKey in catalog))
  }

  /** Whatever the catalog, no action is allowed outright; it is put up for approval exactly when
      it is approvable and the kill switch is off; an enabled kill switch denies everything. */
  lemma EvaluateGatesEverything(catalog: Catalog, topology: Topology, action: Action, environment: string, killSwitch: bool)
    ensures var decision := Evaluate(catalog, topology, action, environment, killSwitch);
            && decision.kind != Allow
            && decision.action == action.id
            && (decision.kind == RequireApproval <==> !killSwitch && Approvable(catalog, topology, action, environment))
            && decision.rule != ""
  {
    assert |RISK_LOW| == 3 && |RISK_MEDIUM| == 6;
  }

  function StatusFromDecision(decision: Decision): ActionStatus {
    match decision.kind
    case Allow => Allowed
    case RequireApproval => Awaiting
    case Deny => Denied
  }
}
