/** The event bodies that the lock, the monitor and the dispatch loop read. */
module LogEvents {
  import opened Results
  import opened EventLog

  datatype Body =
    | WriteLockAcquired(lockToken: Option<string>, correlationId: string)
    | WriteLockReleased(lockToken: Option<string>)
    | TaskStarted(taskId: Option<string>)
    | TerminalOutcome(taskId: Option<string>, outcome: Outcome)
    | VerifierOutcome(taskId: Option<string>, passed: bool)
    | ReviewerCertified(taskId: Option<string>)
    | GateChangeEnacted(targetGate: string, changeKind: string)
    | MemoryEntryCreated(entryId: Option<string>, source: Option<string>)
    | MemoryEntryVerified(entryId: Option<string>)
    | InvariantViolated(dedupKey: Option<string>)
    | Other(eventType: string)

  datatype Outcome = Completed | Rejected | Aborted | OtherOutcome(name: string)

  type Row = Event<Body>
  type Log = seq<Row>
}
