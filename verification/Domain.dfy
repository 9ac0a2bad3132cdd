/** The entities of the incident-remediation service: incidents, candidate actions,
    policy decisions, approval, execution, verification and rollback records. */
module Domain {
  /** A UUID, as the number it is. */
  type Id = int

  datatype Option<+T> = None | Some(value: T)

  datatype IncidentState =
    | Detected
    | Triaging
    | ActionProposed
    | AwaitingApproval
    | Approved
    | ExecutingAction
    | VerifyingAction
    | Resolved
    | FailedRemediation
    | RolledBack
    | Escalated
    | Closed

  datatype ActionStatus =
    | Proposed
    | Invalid
    | Allowed
    | Awaiting
    | Denied
    | ActionApproved
    | Executing
    | Succeeded
    | Failed
    | ActionRolledBack

  datatype ExecutionStatus =
    | ExecStarted
    | ExecSucceeded
    | ExecFailed
    | ExecTimedOut
    | ExecInconclusive

  datatype RollbackStatus = RollbackStarted | RollbackSucceeded | RollbackFailed

  /** Outcome of one verification. */
  datatype Verdict = Success | Failure | Inconclusive

  datatype Verification = Verification(execution: Id, verdict: Verdict)

  datatype Incident = Incident(id: Id, alert: string, environment: string, state: IncidentState, createdAt: int)

  datatype Action = Action(
    id: Id,
    incident: Id,
    actionType: string,
    target: string,
    parameters: string,
    risk: string,
    references: seq<Id>, // to evidence items
    status: ActionStatus,
    createdAt: int)
  {
    /** Everything but the status: the part of a row that no operation rewrites. */
    predicate SameContent(other: Action) {
      this.(status := other.status) == other
    }
  }

  /** Idempotency key of an operation. */
  datatype Key = ExecuteKey(action: Id) | RollbackKey(action: Id)

  datatype DecisionKind = Allow | RequireApproval | Deny

  datatype Decision = Decision(action: Id, kind: DecisionKind, rule: string)

  datatype Approval = Approval(
    action: Id,
    approver: string,
    approved: bool,
    digest: string,
    policy: string,
    expiresAt: Option<int>,
    createdAt: int)

  datatype Execution = Execution(
    id: Id,
    action: Id,
    key: Key,
    initiator: string,
    status: ExecutionStatus,
    startedAt: int,
    finishedAt: int)

  datatype Rollback = Rollback(id: Id, action: Id, operation: string, initiator: string, status: RollbackStatus)

  const RISK_LOW := "low"
  const RISK_MEDIUM := "medium"
  const RISK_HIGH := "high"

  /** A catalog entry. */
  datatype Definition = Definition(
    key: string,
    risk: string,
    executable: bool,
    supportsRollback: bool,
    rollbackKey: string,
    environments: seq<string>,
    targets: seq<string>,
    maxAttempts: int,
    cooldown: int)

  type Catalog = map<string, Definition>

  const HEX := "0123456789abcdef"

  function HexText(n: nat): string {
    if n < 16 then [HEX[n]] else HexText(n / 16) + [HEX[n % 16]]
  }

  lemma {:induction false} HexTextEnds(n: nat)
    ensures HexText(n) != [] && HexText(n)[|HexText(n)| - 1] == HEX[n % 16] && HexText(n)[0] in HEX
    ensures |HexText(n)| == 1 <==> n < 16
  {
    if n >= 16 {
      HexTextEnds(n / 16);
    }
  }

  lemma {:induction false} HexTextIsInjective(a: nat, b: nat)
    requires HexText(a) == HexText(b)
    ensures a == b
  {
    HexTextEnds(a);
    HexTextEnds(b);
    assert a % 16 == b % 16;
    if a >= 16 {
      var s, t := HexText(a), HexText(b);
      assert s[..|s| - 1] == HexText(a / 16) && t[..|t| - 1] == HexText(b / 16);
      HexTextIsInjective(a / 16, b / 16);
    }
  }

  /** The text of a UUID: its hexadecimal digits. */
  function IdText(id: Id): string {
    if id < 0 then "-" + HexText(-id) else HexText(id)
  }

  lemma IdTextIsInjective(a: Id, b: Id)
    requires IdText(a) == IdText(b)
    ensures a == b
  {
    var m, n := if a < 0 then -a else a, if b < 0 then -b else b;
    HexTextEnds(m);
    HexTextEnds(n);
    var s := IdText(a);
    assert s[0] == '-' <==> a < 0;
    assert s[0] == '-' <==> b < 0;
    if a < 0 {
      assert s[1..] == HexText(m) && s[1..] == HexText(n);
    }
    HexTextIsInjective(m, n);
  }

  /** The text an idempotency key is sent as. */
  function KeyText(key: Key): string {
    match key
    case ExecuteKey(action) => "execute:" + IdText(action)
    case RollbackKey(action) => "rollback:" + IdText(action)
  }

  /** Different operations never share a key text. */
  lemma KeyTextIsInjective(a: Key, b: Key)
    requires KeyText(a) == KeyText(b)
    ensures a == b
  {
    var s := KeyText(a);
    assert s == KeyText(b);
    assert s[0] == if a.ExecuteKey? then 'e' else 'r';
    assert s[0] == if b.ExecuteKey? then 'e' else 'r';
    var n := if a.ExecuteKey? then |"execute:"| else |"rollback:"|;
    assert s[n..] == IdText(a.action) && s[n..] == IdText(b.action);
    IdTextIsInjective(a.action, b.action);
  }
}
