/** Federated memory: export, import and what re-importing does (memory/export_import.py, memory/store.py). */
module Memory {
  import opened Results

  /** An entry as it is created, exported and imported. */
  datatype Entry = Entry(
    entryId: string, entryType: string, payload: string, source: string, createdAt: int, correlationId: string)

  /** A row of the memory table. */
  datatype Row = Row(entry: Entry, verified: bool)

  predicate Known(rows: seq<Row>, entryId: string) {
    exists i :: 0 <= i < |rows| && rows[i].entry.entryId == entryId
  }

  /** The greatest creation time among the rows of a source. */
  function LatestFrom(rows: seq<Row>, source: string): (r: Option<int>)
    ensures r.Some? ==> exists i :: 0 <= i < |rows| && rows[i].entry.source == source && rows[i].entry.createdAt == r.value
    ensures forall i :: 0 <= i < |rows| && rows[i].entry.source == source ==> r.Some? && rows[i].entry.createdAt <= r.value
  {
    if rows == [] then None
    else
      var last := rows[|rows| - 1].entry;
      var before := LatestFrom(rows[..|rows| - 1], source);
      if last.source == source && (before.None? || last.createdAt > before.value) then Some(last.createdAt) else before
  }

  /** The created event's handler: a known id is ignored, and only this project's own entries are trusted. */
  function Inserted(project: string, rows: seq<Row>, e: Entry): seq<Row> {
    if Known(rows, e.entryId) then rows else rows + [Row(e, e.source == project)]
  }

  /** The id is taken, or the source has a later entry already. */
  predicate Blocked(rows: seq<Row>, e: Entry) {
    Known(rows, e.entryId) ||
    (LatestFrom(rows, e.source).Some? && e.createdAt < LatestFrom(rows, e.source).value)
  }

  function Correlated(e: Entry): Entry {
    if e.correlationId == "" then e.(correlationId := "memory_import") else e
  }

  function Imported(project: string, rows: seq<Row>, entries: seq<Entry>): seq<Row> {
    if entries == [] then rows
    else
      var before, e := Imported(project, rows, entries[..|entries| - 1]), entries[|entries| - 1];
      if Blocked(before, e) then before else Inserted(project, before, Correlated(e))
  }

  function Exported(rows: seq<Row>): (r: seq<Entry>)
    ensures |r| == |rows| && forall i :: 0 <= i < |r| ==> r[i] == rows[i].entry
  {
    if rows == [] then [] else Exported(rows[..|rows| - 1]) + [rows[|rows| - 1].entry]
  }

  function Verified(rows: seq<Row>, entryId: string): (r: seq<Row>)
    ensures |r| == |rows|
    ensures forall i :: 0 <= i < |r| ==> r[i] == if rows[i].entry.entryId == entryId then rows[i].(verified := true) else rows[i]
  {
    if rows == [] then []
    else
      var last := rows[|rows| - 1];
      Verified(rows[..|rows| - 1], entryId) + [if last.entry.entryId == entryId then last.(verified := true) else last]
  }

  class MemoryStore {
    const project: string
    var rows: seq<Row>

    constructor (project: string)
      ensures this.project == project && rows == []
    {
      this.project, rows := project, [];
    }

    method Created(e: Entry)
      modifies this`rows
      ensures rows == Inserted(project, old(rows), e)
    {
      if !Known(rows, e.entryId) {
        rows := rows + [Row(e, e.source == project)];
      }
    }

    /** Replays an artifact's entries; skips known ids and entries older than the latest of their source. */
    method ImportMemory(entries: seq<Entry>) returns (imported: nat)
      modifies this`rows
      ensures rows == Imported(project, old(rows), entries)
      ensures imported == |rows| - |old(rows)|
    {
      imported := 0;
      for i := 0 to |entries|
        invariant rows == Imported(project, old(rows), entries[..i])
        invariant imported == |rows| - |old(rows)|
      {
        var e := entries[i];
        assert entries[..i + 1][..i] == entries[..i];
        if Known(rows, e.entryId) {
          continue;
        }
        var latest := LatestFrom(rows, e.source);
        if latest.Some? && e.createdAt < latest.value {
          continue;
        }
        Created(Correlated(e));
        imported := imported + 1;
      }
      assert entries[..|entries|] == entries;
    }

    method ExportMemory() returns (entries: seq<Entry>)
      ensures entries == Exported(rows)
    {
      entries := [];
      for i := 0 to |rows|
        invariant entries == Exported(rows[..i])
      {
        assert rows[..i + 1][..i] == rows[..i];
        entries := entries + [rows[i].entry];
      }
      assert rows[..|rows|] == rows;
    }
  }

  // --- importing again ---

  /** The same rows or more, whatever has been verified meanwhile. */
  ghost predicate Extends(rows: seq<Row>, more: seq<Row>) {
    |rows| <= |more| && forall i :: 0 <= i < |rows| ==> more[i].entry == rows[i].entry
  }

  lemma BlockedStays(rows: seq<Row>, more: seq<Row>, e: Entry)
    requires Extends(rows, more) && Blocked(rows, e)
    ensures Blocked(more, e)
  {
    if Known(rows, e.entryId) {
      var i :| 0 <= i < |rows| && rows[i].entry.entryId == e.entryId;
      assert more[i].entry.entryId == e.entryId;
    } else {
      var i :| 0 <= i < |rows| && rows[i].entry.source == e.source && rows[i].entry.createdAt == LatestFrom(rows, e.source).value;
      assert more[i].entry.source == e.source && more[i].entry.createdAt > e.createdAt;
    }
  }

  lemma InsertedBlocks(project: string, rows: seq<Row>, e: Entry)
    ensures Extends(rows, Inserted(project, rows, e)) && Known(Inserted(project, rows, e), e.entryId)
  {
    var next := Inserted(project, rows, e);
    if !Known(rows, e.entryId) {
      assert next[|rows|].entry.entryId == e.entryId;
    }
  }

  /** After an import every one of its entries is blocked. */
  lemma {:induction false} ImportBlocks(project: string, rows: seq<Row>, entries: seq<Entry>)
    ensures Extends(rows, Imported(project, rows, entries))
    ensures forall i :: 0 <= i < |entries| ==> Blocked(Imported(project, rows, entries), entries[i])
  {
    if entries != [] {
      var front, e := entries[..|entries| - 1], entries[|entries| - 1];
      var before, after := Imported(project, rows, front), Imported(project, rows, entries);
      ImportBlocks(project, rows, front);
      InsertedBlocks(project, before, Correlated(e));
      forall i | 0 <= i < |entries| ensures Blocked(after, entries[i]) {
        if i < |front| {
          assert Blocked(before, front[i]);
          BlockedStays(before, after, front[i]);
        }
      }
    }
  }

  lemma {:induction false} BlockedImportNothing(project: string, rows: seq<Row>, entries: seq<Entry>)
    requires forall i :: 0 <= i < |entries| ==> Blocked(rows, entries[i])
    ensures Imported(project, rows, entries) == rows
  {
    if entries != [] {
      BlockedImportNothing(project, rows, entries[..|entries| - 1]);
    }
  }

  /** What can happen to the table. */
  datatype Op = Create(entry: Entry) | Import(entries: seq<Entry>) | Verify(entryId: string)

  function Next(project: string, rows: seq<Row>, op: Op): seq<Row> {
    match op
    case Create(e) => Inserted(project, rows, e)
    case Import(entries) => Imported(project, rows, entries)
    case Verify(id) => Verified(rows, id)
  }

  function Run(project: string, rows: seq<Row>, ops: seq<Op>): seq<Row> {
    if ops == [] then rows else Next(project, Run(project, rows, ops[..|ops| - 1]), ops[|ops| - 1])
  }

  lemma {:induction false} RunExtends(project: string, rows: seq<Row>, ops: seq<Op>)
    ensures Extends(rows, Run(project, rows, ops))
  {
    if ops != [] {
      var before := Run(project, rows, ops[..|ops| - 1]);
      RunExtends(project, rows, ops[..|ops| - 1]);
      match ops[|ops| - 1] {
        case Create(e) => InsertedBlocks(project, before, e);
        case Import(entries) => ImportBlocks(project, before, entries);
        case Verify(_) =>
      }
    }
  }

  /** An artifact imported once imports nothing again, whatever happens to the table in between. */
  lemma ImportIsIdempotent(project: string, rows: seq<Row>, entries: seq<Entry>, ops: seq<Op>)
    ensures var later := Run(project, Imported(project, rows, entries), ops);
            Imported(project, later, entries) == later
  {
    var once := Imported(project, rows, entries);
    var later := Run(project, once, ops);
    ImportBlocks(project, rows, entries);
    RunExtends(project, once, ops);
    forall i | 0 <= i < |entries| ensures Blocked(later, entries[i]) {
      BlockedStays(once, later, entries[i]);
    }
    BlockedImportNothing(project, later, entries);
  }

  // --- order ---

  /** Within each source, creation times never go back. */
  ghost predicate Monotone(entries: seq<Entry>) {
    forall i, j :: 0 <= i < j < |entries| && entries[i].source == entries[j].source ==>
      entries[i].createdAt <= entries[j].createdAt
  }

  lemma MonotoneGrows(project: string, rows: seq<Row>, e: Entry)
    requires Monotone(Exported(rows)) && !Blocked(rows, e)
    ensures Monotone(Exported(Inserted(project, rows, Correlated(e))))
    ensures Inserted(project, rows, Correlated(e)) == rows + [Row(Correlated(e), e.source == project)]
  {
    assert forall i :: 0 <= i < |rows| && rows[i].entry.source == e.source ==> rows[i].entry.createdAt <= e.createdAt;
  }

  /** Import keeps the creation times of each source in row order. */
  lemma {:induction false} ImportKeepsOrder(project: string, rows: seq<Row>, entries: seq<Entry>)
    requires Monotone(Exported(rows))
    ensures Monotone(Exported(Imported(project, rows, entries)))
  {
    if entries != [] {
      ImportKeepsOrder(project, rows, entries[..|entries| - 1]);
      var before, e := Imported(project, rows, entries[..|entries| - 1]), entries[|entries| - 1];
      if !Blocked(before, e) {
        MonotoneGrows(project, before, e);
      }
    }
  }

  // --- export and import ---

  ghost predicate DistinctIds(entries: seq<Entry>) {
    forall i, j :: 0 <= i < j < |entries| ==> entries[i].entryId != entries[j].entryId
  }

  ghost predicate AllCorrelated(entries: seq<Entry>) {
    forall i :: 0 <= i < |entries| ==> entries[i].correlationId != ""
  }

  lemma NextIsFree(before: seq<Row>, entries: seq<Entry>)
    requires DistinctIds(entries) && Monotone(entries) && |before| + 1 == |entries|
    requires Exported(before) == entries[..|before|]
    ensures !Blocked(before, entries[|before|])
  {
    assert forall i :: 0 <= i < |before| ==> before[i].entry == entries[..|before|][i] == entries[i];
  }

  lemma GoodPrefix(entries: seq<Entry>, n: nat)
    requires DistinctIds(entries) && AllCorrelated(entries) && Monotone(entries) && n <= |entries|
    ensures DistinctIds(entries[..n]) && AllCorrelated(entries[..n]) && Monotone(entries[..n])
  {
  }

  lemma FreeEntryEnters(project: string, before: seq<Row>, e: Entry)
    requires !Blocked(before, e) && e.correlationId != ""
    ensures Exported(Inserted(project, before, Correlated(e))) == Exported(before) + [e]
  {
    var row := Row(e, e.source == project);
    assert (before + [row])[..|before|] == before;
  }

  lemma ImportedNext(project: string, entries: seq<Entry>, e: Entry)
    ensures var before := Imported(project, [], entries);
            Imported(project, [], entries + [e]) ==
            if Blocked(before, e) then before else Inserted(project, before, Correlated(e))
  {
    assert (entries + [e])[..|entries|] == entries;
  }

  lemma OneMoreImported(project: string, front: seq<Entry>, e: Entry)
    requires DistinctIds(front + [e]) && Monotone(front + [e]) && e.correlationId != ""
    requires Exported(Imported(project, [], front)) == front
    ensures Exported(Imported(project, [], front + [e])) == front + [e]
  {
    var before := Imported(project, [], front);
    assert |before| == |front|;
    NextIsFree(before, front + [e]);
    FreeEntryEnters(project, before, e);
    ImportedNext(project, front, e);
  }

  lemma {:induction false} OrderedImportsAll(project: string, entries: seq<Entry>)
    requires DistinctIds(entries) && AllCorrelated(entries) && Monotone(entries)
    ensures Exported(Imported(project, [], entries)) == entries
  {
    if entries != [] {
      GoodPrefix(entries, |entries| - 1);
      OrderedImportsAll(project, entries[..|entries| - 1]);
      assert entries == entries[..|entries| - 1] + [entries[|entries| - 1]];
      OneMoreImported(project, entries[..|entries| - 1], entries[|entries| - 1]);
    }
  }

  /**
   A table with distinct ids exports and imports into an empty table entry for entry, in order, exactly
   when the creation times of each of its sources never go back.
   */
  lemma ExportImportReproduces(project: string, rows: seq<Row>)
    requires DistinctIds(Exported(rows)) && AllCorrelated(Exported(rows))
    ensures Exported(Imported(project, [], Exported(rows))) == Exported(rows) <==> Monotone(Exported(rows))
  {
    ImportKeepsOrder(project, [], Exported(rows));
    if Monotone(Exported(rows)) {
      OrderedImportsAll(project, Exported(rows));
    }
  }

  // --- ids ---

  lemma InsertKeepsIds(project: string, rows: seq<Row>, e: Entry)
    requires DistinctIds(Exported(rows))
    ensures DistinctIds(Exported(Inserted(project, rows, e)))
  {
    if !Known(rows, e.entryId) {
      assert forall i :: 0 <= i < |rows| ==> rows[i].entry.entryId != e.entryId;
    }
  }

  lemma {:induction false} ImportKeepsIds(project: string, rows: seq<Row>, entries: seq<Entry>)
    requires DistinctIds(Exported(rows))
    ensures DistinctIds(Exported(Imported(project, rows, entries)))
  {
    if entries != [] {
      var before, e := Imported(project, rows, entries[..|entries| - 1]), entries[|entries| - 1];
      ImportKeepsIds(project, rows, entries[..|entries| - 1]);
      InsertKeepsIds(project, before, Correlated(e));
    }
  }

  /** In every run each id has one row: a second entry of the same id is never added, whoever creates it. */
  lemma {:induction false} IdsStayDistinct(project: string, ops: seq<Op>)
    ensures DistinctIds(Exported(Run(project, [], ops)))
  {
    if ops != [] {
      var before := Run(project, [], ops[..|ops| - 1]);
      IdsStayDistinct(project, ops[..|ops| - 1]);
      match ops[|ops| - 1] {
        case Create(e) => InsertKeepsIds(project, before, e);
        case Import(entries) => ImportKeepsIds(project, before, entries);
        case Verify(_) =>
      }
    }
  }

  // --- trust ---

  /** A trusted row is this project's own, or its id has been verified. */
  ghost predicate TrustEarned(project: string, rows: seq<Row>, verified: set<string>) {
    forall i :: 0 <= i < |rows| && rows[i].verified ==> rows[i].entry.source == project || rows[i].entry.entryId in verified
  }

  function VerifiedIds(ops: seq<Op>): set<string> {
    if ops == [] then {}
    else VerifiedIds(ops[..|ops| - 1]) + match ops[|ops| - 1] case Verify(id) => {id} case _ => {}
  }

  lemma {:induction false} ImportEarnsNothing(project: string, rows: seq<Row>, entries: seq<Entry>, verified: set<string>)
    requires TrustEarned(project, rows, verified)
    ensures TrustEarned(project, Imported(project, rows, entries), verified)
  {
    if entries != [] {
      ImportEarnsNothing(project, rows, entries[..|entries| - 1], verified);
    }
  }

  /** In every run a foreign entry is trusted only once it has been verified here. */
  lemma {:induction false} TrustIsEarned(project: string, ops: seq<Op>)
    ensures TrustEarned(project, Run(project, [], ops), VerifiedIds(ops))
  {
    if ops != [] {
      var front := ops[..|ops| - 1];
      TrustIsEarned(project, front);
      match ops[|ops| - 1] {
        case Create(_) =>
        case Import(entries) => ImportEarnsNothing(project, Run(project, [], front), entries, VerifiedIds(front));
        case Verify(_) =>
      }
    }
  }

  // --- what an import adds, entry by entry ---

  /** A row has the id already, or a later entry of the same source. */
  ghost predicate Held(rows: seq<Row>, e: Entry) {
    exists r :: r in rows && (r.entry.entryId == e.entryId || (r.entry.source == e.source && r.entry.createdAt > e.createdAt))
  }

  lemma BlockedExact(rows: seq<Row>, e: Entry)
    ensures Blocked(rows, e) <==> Held(rows, e)
  {
    if r :| r in rows && (r.entry.entryId == e.entryId || (r.entry.source == e.source && r.entry.createdAt > e.createdAt)) {
      var i :| 0 <= i < |rows| && rows[i] == r;
    }
  }

  /** The row of an imported entry: its own fields, a stand-in for a missing correlation id, and trust by its source. */
  predicate RowOf(project: string, e: Entry, r: Row) {
    && r.entry.entryId == e.entryId && r.entry.entryType == e.entryType && r.entry.payload == e.payload
    && r.entry.source == e.source && r.entry.createdAt == e.createdAt
    && r.entry.correlationId == (if e.correlationId == "" then "memory_import" else e.correlationId)
    && r.verified == (e.source == project)
  }

  /** An entry that the table holds changes nothing; any other adds its row behind. */
  ghost predicate Takes(project: string, rows: seq<Row>, e: Entry, next: seq<Row>) {
    if Held(rows, e) then next == rows
    else |next| == |rows| + 1 && next[..|rows|] == rows && RowOf(project, e, next[|rows|])
  }

  lemma EntryTaken(project: string, rows: seq<Row>, e: Entry)
    ensures Takes(project, rows, e, if Blocked(rows, e) then rows else Inserted(project, rows, Correlated(e)))
  {
    BlockedExact(rows, e);
  }

  /** `tables` are the table before, between and after the entries. */
  ghost predicate Takings(project: string, entries: seq<Entry>, tables: seq<seq<Row>>) {
    |tables| == |entries| + 1 && forall i :: 0 <= i < |entries| ==> Takes(project, tables[i], entries[i], tables[i + 1])
  }

  lemma TakesMore(project: string, front: seq<Entry>, tables: seq<seq<Row>>, e: Entry, next: seq<Row>)
    requires Takings(project, front, tables) && Takes(project, tables[|front|], e, next)
    ensures Takings(project, front + [e], tables + [next])
  {
  }

  lemma ImportOne(project: string, rows: seq<Row>, front: seq<Entry>, e: Entry)
    ensures Takes(project, Imported(project, rows, front), e, Imported(project, rows, front + [e]))
  {
    assert (front + [e])[..|front|] == front;
    EntryTaken(project, Imported(project, rows, front), e);
  }

  /** An import takes its entries one after another. */
  lemma {:induction false} ImportTakes(project: string, rows: seq<Row>, entries: seq<Entry>)
    returns (tables: seq<seq<Row>>)
    ensures Takings(project, entries, tables) && tables[0] == rows && tables[|entries|] == Imported(project, rows, entries)
  {
    tables := [rows];
    if entries != [] {
      var front, e := entries[..|entries| - 1], entries[|entries| - 1];
      assert entries == front + [e];
      tables := ImportTakes(project, rows, front);
      ImportOne(project, rows, front, e);
      TakesMore(project, front, tables, e, Imported(project, rows, entries));
      tables := tables + [Imported(project, rows, entries)];
    }
  }

  /** What an import adds is trusted at once exactly where the entry names this project as its source. */
  lemma {:induction false} ArrivalTrust(project: string, rows: seq<Row>, entries: seq<Entry>, i: nat)
    requires |rows| <= i < |Imported(project, rows, entries)|
    ensures var row := Imported(project, rows, entries)[i]; row.verified <==> row.entry.source == project
  {
    if entries != [] {
      var front := entries[..|entries| - 1];
      if i < |Imported(project, rows, front)| {
        ArrivalTrust(project, rows, front, i);
      }
    }
  }

  /** One such entry, imported into an empty table: it is trusted without any verification here. */
  lemma ArrivesTrusted(project: string, e: Entry)
    requires e.source == project && e.correlationId != ""
    ensures Imported(project, [], [e]) == [Row(e, true)]
  {
    assert [e][..0] == [];
  }
}
