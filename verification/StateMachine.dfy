/** backend/src/reports/state_machine.py: the lifecycle as a table. */
module StateMachine {
  import opened ReportEnums

  const ALLOWED: map<ExecutionStatus, set<ExecutionStatus>> := map[
    Queued := {Assigned, Cancelled, TimedOut},
    Assigned := {Running, Failed, TimedOut, Cancelled, Queued},
    Running := {Succeeded, Failed, TimedOut, Cancelled},
    Failed := {Retrying},
    TimedOut := {Retrying},
    Succeeded := {},
    Cancelled := {},
    Retrying := {}
  ]

  predicate CanTransition(current: ExecutionStatus, target: ExecutionStatus) {
    current in ALLOWED && target in ALLOWED[current]
  }

  /** How many more moves a row can make. The table's one edge that does not
      lower it, Assigned to Queued, is taken by no operation. */
  function Rank(status: ExecutionStatus): nat {
    match status
    case Queued => 4
    case Assigned => 3
    case Running => 2
    case Failed => 1
    case TimedOut => 1
    case Succeeded => 0
    case Cancelled => 0
    case Retrying => 0
  }

  lemma RankFalls(current: ExecutionStatus, target: ExecutionStatus)
    requires CanTransition(current, target)
    ensures (current, target) == (Assigned, Queued) || Rank(target) < Rank(current)
  {
  }
}
