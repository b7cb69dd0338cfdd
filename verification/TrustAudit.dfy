/** What the trusted-memory check would report if it read the table that the same log builds (monitor/checks.py). */
module TrustAudit {
  import opened Results
  import opened LogEvents
  import opened Violations
  import opened Sweep
  import Memory

  /** The created and verified handlers over a log; of an entry only id and source matter here. */
  function TableOf(project: string, log: Log): seq<Memory.Row> {
    if log == [] then []
    else Handled(project, TableOf(project, log[..|log| - 1]), log[|log| - 1].payload)
  }

  function Handled(project: string, rows: seq<Memory.Row>, b: Body): seq<Memory.Row> {
    match b
    case MemoryEntryCreated(Some(id), Some(source)) =>
      Memory.Inserted(project, rows, Memory.Entry(id, "", "", source, 0, ""))
    case MemoryEntryVerified(Some(id)) => Memory.Verified(rows, id)
    case _ => rows
  }

  /** What the events of a log do to the memory table, as its operations. */
  function OpsOf(log: Log): seq<Memory.Op> {
    if log == [] then [] else OpsOf(log[..|log| - 1]) + OpOf(log[|log| - 1].payload)
  }

  function OpOf(b: Body): seq<Memory.Op> {
    match b
    case MemoryEntryCreated(Some(id), Some(source)) => [Memory.Create(Memory.Entry(id, "", "", source, 0, ""))]
    case MemoryEntryVerified(Some(id)) => [Memory.Verify(id)]
    case _ => []
  }

  lemma RunHandled(project: string, ops: seq<Memory.Op>, b: Body)
    ensures Memory.Run(project, [], ops + OpOf(b)) == Handled(project, Memory.Run(project, [], ops), b)
  {
    if OpOf(b) == [] {
      assert ops + [] == ops;
    } else {
      assert (ops + OpOf(b))[..|ops|] == ops;
    }
  }

  /** The table of a log is the one that the memory store's operations make. */
  lemma {:induction false} TableIsRun(project: string, log: Log)
    ensures TableOf(project, log) == Memory.Run(project, [], OpsOf(log))
  {
    if log != [] {
      TableIsRun(project, log[..|log| - 1]);
      RunHandled(project, OpsOf(log[..|log| - 1]), log[|log| - 1].payload);
    }
  }

  /** The entry has a row, and the row is trusted. */
  predicate Trusts(rows: seq<Memory.Row>, id: string) {
    exists i :: 0 <= i < |rows| && rows[i].entry.entryId == id && rows[i].verified
  }

  /** The source that an id was first created with. */
  function FirstSource(log: Log, id: string): Option<string> {
    if log == [] then None
    else
      var before := FirstSource(log[..|log| - 1], id);
      if before.Some? then before
      else match log[|log| - 1].payload
        case MemoryEntryCreated(Some(created), Some(source)) => if created == id then Some(source) else None
        case _ => None
  }

  lemma InsertedTrust(project: string, rows: seq<Memory.Row>, created: string, source: string, id: string)
    ensures var next := Memory.Inserted(project, rows, Memory.Entry(created, "", "", source, 0, ""));
            && (Memory.Known(next, id) <==> Memory.Known(rows, id) || created == id)
            && (Trusts(next, id) <==> Trusts(rows, id) || (created == id && source == project && !Memory.Known(rows, id)))
  {
    var e := Memory.Entry(created, "", "", source, 0, "");
    var next := Memory.Inserted(project, rows, e);
    if !Memory.Known(rows, created) {
      assert next[|rows|] == Memory.Row(e, source == project);
      assert forall i :: 0 <= i < |rows| ==> next[i] == rows[i];
    }
  }

  lemma VerifiedTrust(rows: seq<Memory.Row>, other: string, id: string)
    requires other != id
    ensures var next := Memory.Verified(rows, other);
            (Memory.Known(next, id) <==> Memory.Known(rows, id)) && (Trusts(next, id) <==> Trusts(rows, id))
  {
    var next := Memory.Verified(rows, other);
    assert forall i :: 0 <= i < |rows| && rows[i].entry.entryId == id ==> next[i] == rows[i];
    assert forall i :: 0 <= i < |rows| && next[i].entry.entryId == id ==> next[i] == rows[i];
  }

  lemma VerifiedFront(log: Log, key: Option<string>)
    requires log != [] && key !in VerifiedIds(log)
    ensures key !in VerifiedIds(log[..|log| - 1])
    ensures log[|log| - 1].payload != MemoryEntryVerified(key)
  {
    VerifiedGrow(log[..|log| - 1], log[|log| - 1]);
    assert log == log[..|log| - 1] + [log[|log| - 1]];
  }

  /** An entry that nothing verified is trusted exactly when this project created it first. */
  lemma {:induction false} TrustUnverified(project: string, log: Log, id: string)
    requires Some(id) !in VerifiedIds(log)
    ensures Memory.Known(TableOf(project, log), id) <==> FirstSource(log, id).Some?
    ensures Trusts(TableOf(project, log), id) <==> FirstSource(log, id) == Some(project)
  {
    if log != [] {
      var front, b := log[..|log| - 1], log[|log| - 1].payload;
      VerifiedFront(log, Some(id));
      TrustUnverified(project, front, id);
      match b {
        case MemoryEntryCreated(Some(created), Some(source)) =>
          InsertedTrust(project, TableOf(project, front), created, source, id);
        case MemoryEntryVerified(Some(other)) => VerifiedTrust(TableOf(project, front), other, id);
        case _ =>
      }
    }
  }

  /** The checks with the column filled in from the table of the log. */
  function Audit(chk: Checks, project: string, log: Log): Checks {
    chk.(trusted := Some(id => Trusts(TableOf(project, log), id)))
  }

  /** A row that creates an entry under a source of its own, which nothing verified. */
  predicate CreatesUnverified(log: Log, i: nat, id: string, source: string)
    requires i < |log|
  {
    log[i].payload == MemoryEntryCreated(Some(id), Some(source)) && id != "" && Some(id) !in VerifiedIds(log)
  }

  /** With the column kept by the same handlers, a row is reported exactly when this project created its id first. */
  lemma AuditExact(chk: Checks, project: string, log: Log, i: nat, id: string, source: string)
    requires i < |log| && CreatesUnverified(log, i, id, source)
    ensures TrustsUnverified(Audit(chk, project, log), VerifiedIds(log), log[i].payload) <==>
              Foreign(Some(source)) && FirstSource(log, id) == Some(project)
  {
    TrustUnverified(project, log, id);
  }

  /** Every id is created from one source only. */
  ghost predicate OneSourceEach(log: Log) {
    forall i: nat, j: nat :: i < |log| && j < |log| ==> SameSource(log[i].payload, log[j].payload)
  }

  predicate SameSource(a: Body, b: Body) {
    a.MemoryEntryCreated? && b.MemoryEntryCreated? && a.entryId == b.entryId ==> a.source == b.source
  }

  lemma {:induction false} FirstIsSome(log: Log, i: nat, id: string, source: string)
    requires i < |log| && log[i].payload == MemoryEntryCreated(Some(id), Some(source)) && OneSourceEach(log)
    ensures FirstSource(log, id) == Some(source)
  {
    var front := log[..|log| - 1];
    assert SameSource(log[i].payload, log[|log| - 1].payload);
    assert OneSourceEach(front) by {
      forall a: nat, b: nat | a < |front| && b < |front| ensures SameSource(front[a].payload, front[b].payload) {
        assert SameSource(log[a].payload, log[b].payload);
      }
    }
    if i < |front| {
      FirstIsSome(front, i, id, source);
    } else if j :| 0 <= j < |front| && Creates(front[j].payload, id) {
      assert SameSource(log[j].payload, log[i].payload);
      FirstIsSome(front, j, id, source);
    } else {
      NoneCreates(front, id);
    }
  }

  predicate Creates(b: Body, id: string) {
    b.MemoryEntryCreated? && b.entryId == Some(id) && b.source.Some?
  }

  lemma {:induction false} NoneCreates(log: Log, id: string)
    requires forall j :: 0 <= j < |log| ==> !Creates(log[j].payload, id)
    ensures FirstSource(log, id) == None
  {
    if log != [] {
      NoneCreates(log[..|log| - 1], id);
    }
  }

  /**
   So no entry from another project is ever reported, and this project's own unverified ones all are,
   unless the project is called `local` or has no name: the check compares with that word and not with
   the project's name.
   */
  lemma OwnRowsReported(chk: Checks, project: string, log: Log, i: nat, id: string, source: string)
    requires OneSourceEach(log) && i < |log| && CreatesUnverified(log, i, id, source)
    ensures TrustsUnverified(Audit(chk, project, log), VerifiedIds(log), log[i].payload) <==>
              source == project && project != "" && project != "local"
  {
    AuditExact(chk, project, log, i, id, source);
    FirstIsSome(log, i, id, source);
  }

  /** All that the check reports over a log. */
  lemma AuditReports(chk: Checks, project: string, log: Log, v: Violation)
    requires OneSourceEach(log)
    ensures v in Untrusted(Audit(chk, project, log), VerifiedIds(log), log) <==>
              project != "" && project != "local" &&
              exists i: nat, id: string ::
                i < |log| && CreatesUnverified(log, i, id, project) && v == About(Kind.UnverifiedTrust, log[i])
  {
    var audit := Audit(chk, project, log);
    UntrustedExact(audit, VerifiedIds(log), log, v);
    forall i: nat, id: string | i < |log| && CreatesUnverified(log, i, id, project)
      ensures TrustsUnverified(audit, VerifiedIds(log), log[i].payload) <==> project != "" && project != "local"
    {
      OwnRowsReported(chk, project, log, i, id, project);
    }
    forall i: nat | i < |log| && TrustsUnverified(audit, VerifiedIds(log), log[i].payload)
      ensures CreatesUnverified(log, i, log[i].payload.entryId.value, project) && project != "" && project != "local"
    {
      var b := log[i].payload;
      OwnRowsReported(chk, project, log, i, b.entryId.value, b.source.value);
    }
  }
}
