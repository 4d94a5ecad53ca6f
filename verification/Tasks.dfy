/** The outcome of executing a task, as the executor and the orchestrator exchange it. */
module Tasks {
  import opened Options

  datatype Status =
    | Submitted | Working
    | Completed | Failed | Cancelled | Rejected
    | InputRequired | AuthRequired
    | Unlisted(name: string)

  predicate Terminal(s: Status) {
    s.Completed? || s.Failed? || s.Cancelled? || s.Rejected?
  }

  /** The lifecycle; any other string a caller reports is unlisted. */
  predicate Listed(s: Status) {
    !s.Unlisted?
  }

  /** The statuses a result may carry; the other listed ones only occur in task records. */
  predicate IsOutcome(s: Status) {
    Listed(s) && !s.Submitted? && !s.Working?
  }

  type Payload = map<string, string>

  datatype RawResult = Result(
    status: Status,
    data: Option<Payload>,
    error: Option<string>,
    requiresEscalation: bool,
    escalationReason: Option<string>,
    messages: seq<string>,
    artifacts: seq<string>,
    tags: Option<seq<string>>)

  /** Construction refuses any other status. */
  type TaskResult = r: RawResult | IsOutcome(r.status)
    witness Result(Completed, None, None, false, None, [], [], None)

  /** What a call into the dispatcher or a peer ends with. */
  datatype Reply = Raised(error: string) | Returned(result: TaskResult)
}
