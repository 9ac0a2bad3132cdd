/** The incident state table and the bound it puts on the life of one incident. */
module StateMachine {
  import opened Domain

  function Successors(from: IncidentState): set<IncidentState> {
    match from
    case Detected => {Triaging, Closed}
    case Triaging => {ActionProposed, Escalated, Closed}
    case ActionProposed => {AwaitingApproval, Approved, Escalated, Closed}
    case AwaitingApproval => {Approved, Escalated, Closed}
    case Approved => {ExecutingAction, Escalated}
    case ExecutingAction => {VerifyingAction, FailedRemediation, Escalated}
    case VerifyingAction => {Resolved, FailedRemediation, RolledBack, Escalated}
    case Resolved => {Closed}
    case FailedRemediation => {RolledBack, Escalated, Closed}
    case RolledBack => {Escalated, Closed}
    case Escalated => {Closed}
    case Closed => {}
  }

  predicate CanTransition(from: IncidentState, to: IncidentState) {
    to in Successors(from)
  }

  predicate Terminal(state: IncidentState) {
    state in {Resolved, FailedRemediation, RolledBack, Escalated, Closed}
  }

  /** Length of the longest path of table moves from a state to Closed. */
  function Rank(state: IncidentState): nat {
    match state
    case Detected => 10
    case Triaging => 9
    case ActionProposed => 8
    case AwaitingApproval => 7
    case Approved => 6
    case ExecutingAction => 5
    case VerifyingAction => 4
    case FailedRemediation => 3
    case RolledBack => 2
    case Resolved => 1
    case Escalated => 1
    case Closed => 0
  }

  /** A path of table moves. */
  ghost predicate Path(states: seq<IncidentState>) {
    forall k :: 0 < k < |states| ==> CanTransition(states[k - 1], states[k])
  }

  /** Rank really is the longest path: no path from a state is longer, and one has that length. */
  lemma {:induction false} RankBoundsPaths(states: seq<IncidentState>)
    requires states != [] && Path(states)
    ensures |states| - 1 <= Rank(states[0])
  {
    if |states| > 1 {
      assert CanTransition(states[0], states[1]);
      assert Path(states[1..]) by {
        forall k | 0 < k < |states[1..]| ensures CanTransition(states[1..][k - 1], states[1..][k]) {
          assert CanTransition(states[k], states[k + 1]);
        }
      }
      RankBoundsPaths(states[1..]);
    }
  }

  /** The successor on a longest path. */
  function BestSuccessor(state: IncidentState): (next: IncidentState)
    requires state != Closed
    ensures CanTransition(state, next) && Rank(next) == Rank(state) - 1
  {
    match state
    case Detected => Triaging
    case Triaging => ActionProposed
    case ActionProposed => AwaitingApproval
    case AwaitingApproval => Approved
    case Approved => ExecutingAction
    case ExecutingAction => VerifyingAction
    case VerifyingAction => FailedRemediation
    case FailedRemediation => RolledBack
    case RolledBack => Escalated
    case _ => Closed
  }

  lemma {:induction false} RankIsReached(state: IncidentState) returns (states: seq<IncidentState>)
    ensures states != [] && states[0] == state && states[|states| - 1] == Closed
    ensures Path(states) && |states| - 1 == Rank(state)
    decreases Rank(state)
  {
    if state == Closed {
      states := [Closed];
    } else {
      var next := BestSuccessor(state);
      var rest := RankIsReached(next);
      states := [state] + rest;
      forall k | 0 < k < |states| ensures CanTransition(states[k - 1], states[k]) {
        if k > 1 {
          assert CanTransition(rest[k - 2], rest[k - 1]);
        }
      }
    }
  }

  /** The table read backwards: from where each state is reached. */
  lemma Predecessors(from: IncidentState)
    ensures !CanTransition(from, Detected)
    ensures CanTransition(from, Triaging) <==> from.Detected?
    ensures CanTransition(from, ActionProposed) <==> from.Triaging?
    ensures CanTransition(from, AwaitingApproval) <==> from.ActionProposed?
    ensures CanTransition(from, Approved) <==> from.ActionProposed? || from.AwaitingApproval?
    ensures CanTransition(from, ExecutingAction) <==> from.Approved?
    ensures CanTransition(from, VerifyingAction) <==> from.ExecutingAction?
    ensures CanTransition(from, Resolved) <==> from.VerifyingAction?
    ensures CanTransition(from, FailedRemediation) <==> from.ExecutingAction? || from.VerifyingAction?
    ensures CanTransition(from, RolledBack) <==> from.VerifyingAction? || from.FailedRemediation?
    ensures CanTransition(from, Escalated) <==> !from.Detected? && !from.Resolved? && !from.Escalated? && !from.Closed?
    ensures CanTransition(from, Closed)
            <==> !from.Approved? && !from.ExecutingAction? && !from.VerifyingAction? && !from.Closed?
  {
  }

  /** The terminal states are those from which no action can be executing any more. */
  lemma TerminalIff(state: IncidentState)
    ensures Terminal(state) <==> Rank(state) < Rank(VerifyingAction)
  {
  }

  /** Within the table a terminal state is never left for a non-terminal one. */
  lemma TerminalIsAbsorbing(from: IncidentState, to: IncidentState)
    requires CanTransition(from, to) && Terminal(from)
    ensures Terminal(to)
  {
  }
}
