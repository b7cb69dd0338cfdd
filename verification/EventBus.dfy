/** Transactional append with projection handlers on one shared connection (events/bus.py, projections/parity.py). */
module EventBus {
  import opened Results
  import opened EventLog
  import opened Projections

  /** The database: the events table, the projection tables, and the tables callers write themselves. */
  datatype Store<P, R, D> = Store(log: seq<Event<P>>, tables: Tables<R>, other: D)

  /** What an emit is asked to append. */
  datatype Request<P> = Request(eventId: string, correlationId: string, eventType: string, payload: P)

  datatype EmitError = MissingCorrelation | HandlerRaised(reason: string)

  function Linked<P>(c: Codec<P>, log: seq<Event<P>>, r: Request<P>): (e: Event<P>)
    ensures Links(c, LastHash(log), e) && e.seqNo == |log| + 1
  {
    var prev := LastHash(log);
    var hash := c.sha(Preimage(prev, Fields(r.eventId, r.correlationId, r.eventType, c.encode(r.payload))));
    Event(|log| + 1, r.eventId, r.correlationId, r.eventType, r.payload, prev, hash)
  }

  /** One atomic emit: the linked event together with its projections, or nothing. */
  function Append<P, R, D>(c: Codec<P>, g: Registered<P, R>, s: Store<P, R, D>, r: Request<P>)
    : Result<Store<P, R, D>, EmitError>
  {
    if r.correlationId == "" then Err(MissingCorrelation)
    else
      var e := Linked(c, s.log, r);
      match Project(g, s.tables, e)
      case Ok(t) => Ok(s.(log := s.log + [e], tables := t))
      case Err(reason) => Err(HandlerRaised(reason))
  }

  /** The row for a request after a log: the request's own fields, the next number, and the link to the tail. */
  ghost predicate RowFor<P>(c: Codec<P>, log: seq<Event<P>>, r: Request<P>, e: Event<P>) {
    && e.eventId == r.eventId && e.correlationId == r.correlationId
    && e.eventType == r.eventType && e.payload == r.payload
    && e.seqNo == |log| + 1 && Links(c, LastHash(log), e)
  }

  /** The store grows by the row for the request and by what every handler of its type makes of the tables. */
  ghost predicate Grows<P, R, D>(
    c: Codec<P>, g: Registered<P, R>, before: Store<P, R, D>, r: Request<P>, after: Store<P, R, D>)
  {
    && |after.log| == |before.log| + 1 && after.log[..|before.log|] == before.log
    && RowFor(c, before.log, r, after.log[|before.log|]) && after.other == before.other
    && ApplyAll(g.HandlersFor(r.eventType), before.tables, after.log[|before.log|]) == Ok(after.tables)
  }

  /** Given the row for the request, the handlers of its type raise. */
  ghost predicate Raises<P, R, D>(
    c: Codec<P>, g: Registered<P, R>, before: Store<P, R, D>, r: Request<P>, e: Event<P>, reason: string)
  {
    RowFor(c, before.log, r, e) && ApplyAll(g.HandlersFor(r.eventType), before.tables, e) == Err(reason)
  }

  /** What an atomic emit does, told by the stored row and the single handlers. */
  lemma AppendGrows<P, R, D>(c: Codec<P>, g: Registered<P, R>, s: Store<P, R, D>, r: Request<P>)
    ensures match Append(c, g, s, r)
            case Ok(after) => r.correlationId != "" && Grows(c, g, s, r, after)
            case Err(MissingCorrelation) => r.correlationId == ""
            case Err(HandlerRaised(reason)) => r.correlationId != "" && exists e :: Raises(c, g, s, r, e, reason)
  {
    var e := Linked(c, s.log, r);
    assert RowFor(c, s.log, r, e);
    if Project(g, s.tables, e).Err? {
      assert Raises(c, g, s, r, e, Project(g, s.tables, e).error);
    }
  }

  /** Rows are numbered from one without gaps, and every row names its correlation. */
  ghost predicate Numbered<P>(log: seq<Event<P>>) {
    forall i :: 0 <= i < |log| ==> log[i].seqNo == i + 1 && log[i].correlationId != ""
  }

  /** The invariant of the store: an intact chain, and projections equal to a replay of it. */
  ghost predicate Consistent<P, R, D>(c: Codec<P>, g: Registered<P, R>, s: Store<P, R, D>) {
    Chained(c, s.log) && Numbered(s.log) && Replay(g, s.log) == Ok(s.tables)
  }

  lemma NumberedGrows<P>(log: seq<Event<P>>, e: Event<P>)
    requires Numbered(log) && e.seqNo == |log| + 1 && e.correlationId != ""
    ensures Numbered(log + [e])
  {
  }

  lemma ReplayGrows<P, R>(g: Registered<P, R>, log: seq<Event<P>>, t: Tables<R>, e: Event<P>)
    requires Replay(g, log) == Ok(t)
    ensures Replay(g, log + [e]) == Project(g, t, e)
  {
    assert (log + [e])[..|log|] == log;
  }

  lemma AppendKeeps<P, R, D>(c: Codec<P>, g: Registered<P, R>, s: Store<P, R, D>, r: Request<P>)
    requires Consistent(c, g, s) && Append(c, g, s, r).Ok?
    ensures Consistent(c, g, Append(c, g, s, r).value)
    ensures s.log < Append(c, g, s, r).value.log
  {
    var e := Linked(c, s.log, r);
    ChainedGrows(c, s.log, e);
    NumberedGrows(s.log, e);
    ReplayGrows(g, s.log, s.tables, e);
  }

  /** A connection: what is committed, what its open transaction sees, and whether one is open. */
  class Connection<P, R, D> {
    var committed: Store<P, R, D>
    var working: Store<P, R, D>
    var inTransaction: bool

    constructor (s: Store<P, R, D>)
      ensures committed == working == s && !inTransaction
    {
      committed, working, inTransaction := s, s, false;
    }

    ghost predicate Settled()
      reads this
    {
      !inTransaction && working == committed
    }

    method Begin()
      requires Settled()
      modifies this`inTransaction
      ensures inTransaction
    {
      inTransaction := true;
    }

    /** A caller's own write opens a transaction implicitly. */
    method Write(other: D)
      modifies this`working, this`inTransaction
      ensures inTransaction && working == old(working).(other := other)
    {
      inTransaction := true;
      working := working.(other := other);
    }

    method Commit()
      modifies this`committed, this`inTransaction
      ensures committed == working && !inTransaction
    {
      committed, inTransaction := working, false;
    }

    method Rollback()
      modifies this`working, this`inTransaction
      ensures working == committed && !inTransaction
    {
      working, inTransaction := committed, false;
    }
  }

  class EventBus<P, R(==), D> {
    const codec: Codec<P>
    const conn: Connection<P, R, D>
    const registry: ProjectionRegistry?<P, R>

    constructor (codec: Codec<P>, conn: Connection<P, R, D>, registry: ProjectionRegistry?<P, R>)
      ensures this.codec == codec && this.conn == conn && this.registry == registry
    {
      this.codec, this.conn, this.registry := codec, conn, registry;
    }

    /** A bus without a registry runs no handlers. */
    function Handlers(): Registered<P, R>
      reads registry
    {
      if registry == null then Registered([], map[]) else registry.Contents()
    }

    /** Between calls only the caller's own tables can differ from what is committed. */
    ghost predicate Valid()
      reads conn, registry
    {
      && Consistent(codec, Handlers(), conn.committed)
      && conn.working == conn.committed.(other := conn.working.other)
      && (!conn.inTransaction ==> conn.Settled())
    }

    function LastHashOf(): string
      reads conn
    {
      LastHash(conn.working.log)
    }

    /** Hashes the request against the tail and inserts its row. */
    method InsertRow(r: Request<P>) returns (event: Event<P>)
      modifies conn`working
      ensures event == Linked(codec, old(conn.working.log), r)
      ensures conn.working == old(conn.working).(log := old(conn.working.log) + [event])
    {
      var prev := LastHashOf();
      var digest := codec.sha(
        Preimage(prev, Fields(r.eventId, r.correlationId, r.eventType, codec.encode(r.payload))));
      event := Event(|conn.working.log| + 1, r.eventId, r.correlationId, r.eventType, r.payload, prev, digest);
      conn.working := conn.working.(log := conn.working.log + [event]);
    }

    /** The guarded part of an emit: row, handlers and commit, or a rollback of all of it. */
    method InsertAndProject(r: Request<P>) returns (res: Result<(string, string), EmitError>)
      requires Consistent(codec, Handlers(), conn.committed)
      requires conn.working == conn.committed.(other := conn.working.other) && r.correlationId != ""
      modifies conn
      ensures conn.Settled() && Consistent(codec, Handlers(), conn.committed)
      ensures match old(Append(codec, Handlers(), conn.working, r))
              case Ok(s) => conn.committed == s && s.log != [] && res == Ok((r.eventId, LastHash(s.log)))
              case Err(e) => conn.committed == old(conn.committed) && res == Err(e)
    {
      ghost var before := conn.working;
      var event := InsertRow(r);
      var outcome := RunHandlers(Handlers().HandlersFor(r.eventType), conn.working.tables, event);
      match outcome {
        case Err(reason) =>
          conn.Rollback();
          res := Err(HandlerRaised(reason));
        case Ok(tables) =>
          conn.working := conn.working.(tables := tables);
          AppendKeeps(codec, Handlers(), before, r);
          conn.Commit();
          res := Ok((r.eventId, event.hash));
      }
    }

    /**
     Appends an event and its projections to what the open transaction sees and commits the whole
     batch; a handler that raises undoes the batch, the caller's own writes included. The row that is
     stored is the one asked for, and its id and hash are what is returned.
     */
    method EmitSync(r: Request<P>) returns (res: Result<(string, string), EmitError>)
      requires Valid()
      modifies conn
      ensures Valid()
      ensures r.correlationId == "" ==> res == Err(MissingCorrelation) && unchanged(conn)
      ensures r.correlationId != "" ==> conn.Settled()
      ensures match res
              case Ok((id, hash)) =>
                && Grows(codec, Handlers(), old(conn.working), r, conn.committed)
                && id == r.eventId && hash == LastHash(conn.committed.log)
              case Err(MissingCorrelation) => r.correlationId == ""
              case Err(HandlerRaised(reason)) =>
                && conn.committed == old(conn.committed)
                && exists e :: Raises(codec, Handlers(), old(conn.working), r, e, reason)
      ensures match old(Append(codec, Handlers(), conn.working, r))
              case Ok(s) => conn.committed == s && s.log != [] && res == Ok((r.eventId, LastHash(s.log)))
              case Err(e) => conn.committed == old(conn.committed) && res == Err(e)
    {
      AppendGrows(codec, Handlers(), conn.working, r);
      if r.correlationId == "" {
        return Err(MissingCorrelation);
      }
      if !conn.inTransaction {
        conn.Begin();
      }
      res := InsertAndProject(r);
    }

    /**
     Compares the live projections with a rebuild, and leaves the rebuild in place and committed. A
     handler that raises leaves the half-finished rebuild uncommitted.
     */
    method CheckParity() returns (r: Result<bool, string>)
      modifies conn
      ensures match old(Replay(Handlers(), conn.working.log))
              case Ok(t) =>
                && conn.Settled() && conn.committed == old(conn.working).(tables := t)
                && (r.Ok? <==> forall n :: n in Handlers().tables ==>
                      RowsOf(old(conn.working.tables), n) == RowsOf(t, n))
              case Err(_) => r.Err? && conn.committed == old(conn.committed)
      ensures old(Valid()) ==> r == Ok(true) && Valid() && conn.committed == old(conn.working)
    {
      var before := conn.working.tables;
      conn.inTransaction := true;
      var rebuilt := Rebuild(Handlers(), conn.working.log);
      match rebuilt {
        case Err(reason) =>
          return Err(reason);
        case Ok(after) =>
          conn.working := conn.working.(tables := after);
          conn.Commit();
          var names := Handlers().tables;
          for i := 0 to |names|
            invariant forall k :: 0 <= k < i ==> RowsOf(before, names[k]) == RowsOf(after, names[k])
          {
            if RowsOf(before, names[i]) != RowsOf(after, names[i]) {
              return Err(names[i]);
            }
          }
          r := Ok(true);
      }
    }
  }

  function RowsOf<R(==)>(t: Tables<R>, name: string): seq<R> {
    if name in t then t[name] else []
  }
}
