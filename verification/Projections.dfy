/** Projection handlers, their registry, and replay of the log (projections/registry.py, parity.py). */
module Projections {
  import opened Results
  import opened EventLog

  /** The rows of every registered projection table. */
  type Tables<R> = map<string, seq<R>>

  /** A handler rewrites the projection tables for one event, or raises. */
  type Handler<!P, !R> = (Tables<R>, Event<P>) -> Result<Tables<R>, string>

  /** What a registry holds: the tables to clear, and the handlers of each event type in order. */
  datatype Registered<!P, !R> = Registered(tables: seq<string>, handlers: map<string, seq<Handler<P, R>>>) {
    function HandlersFor(eventType: string): seq<Handler<P, R>> {
      if eventType in handlers then handlers[eventType] else []
    }

    /** Every registered table without rows. */
    function Empty(): Tables<R> {
      map t | t in tables :: []
    }
  }

  class ProjectionRegistry<!P, !R> {
    var tables: seq<string>
    var handlers: map<string, seq<Handler<P, R>>>

    constructor ()
      ensures Contents() == Registered([], map[])
    {
      tables, handlers := [], map[];
    }

    function Contents(): Registered<P, R>
      reads this
    {
      Registered(tables, handlers)
    }

    /** Registering a table again changes nothing. */
    method RegisterTable(table: string)
      modifies this`tables
      ensures tables == if table in old(tables) then old(tables) else old(tables) + [table]
    {
      if table !in tables {
        tables := tables + [table];
      }
    }

    /** A handler runs after those already registered for its event type. */
    method RegisterHandler(eventType: string, handler: Handler<P, R>)
      modifies this`handlers
      ensures Contents().HandlersFor(eventType) == old(Contents().HandlersFor(eventType)) + [handler]
      ensures forall t :: t != eventType ==> Contents().HandlersFor(t) == old(Contents().HandlersFor(t))
    {
      var present := Contents().HandlersFor(eventType);
      handlers := handlers[eventType := present + [handler]];
    }
  }

  /** Runs handlers one after another; the first to raise ends it. */
  function ApplyAll<P, R>(hs: seq<Handler<P, R>>, t: Tables<R>, e: Event<P>): Result<Tables<R>, string> {
    if hs == [] then Ok(t)
    else
      var mid :- ApplyAll(hs[..|hs| - 1], t, e);
      hs[|hs| - 1](mid, e)
  }

  function Project<P, R>(g: Registered<P, R>, t: Tables<R>, e: Event<P>): Result<Tables<R>, string> {
    ApplyAll(g.HandlersFor(e.eventType), t, e)
  }

  /** The projections of a log, folded from empty tables. */
  function Replay<P, R>(g: Registered<P, R>, log: seq<Event<P>>): Result<Tables<R>, string> {
    if log == [] then Ok(g.Empty())
    else
      var t :- Replay(g, log[..|log| - 1]);
      Project(g, t, log[|log| - 1])
  }

  /** A handler that raised is not followed by others. */
  lemma {:induction false} ApplyAllStops<P, R>(hs: seq<Handler<P, R>>, more: seq<Handler<P, R>>, t: Tables<R>, e: Event<P>)
    requires ApplyAll(hs, t, e).Err?
    ensures ApplyAll(hs + more, t, e) == ApplyAll(hs, t, e)
  {
    if more == [] {
      assert hs + more == hs;
    } else {
      assert (hs + more)[..|hs + more| - 1] == hs + more[..|more| - 1];
      ApplyAllStops(hs, more[..|more| - 1], t, e);
    }
  }

  lemma ApplyAllNext<P, R>(hs: seq<Handler<P, R>>, n: nat, t: Tables<R>, e: Event<P>)
    requires n < |hs|
    ensures var mid := ApplyAll(hs[..n], t, e);
            ApplyAll(hs[..n + 1], t, e) == if mid.Ok? then hs[n](mid.value, e) else mid
  {
    assert hs[..n + 1][..n] == hs[..n];
  }

  /** `ts` are the tables before, between and after handlers none of which raises. */
  ghost predicate Trace<P, R>(hs: seq<Handler<P, R>>, t: Tables<R>, e: Event<P>, ts: seq<Tables<R>>) {
    |ts| == |hs| + 1 && ts[0] == t && forall i :: 0 <= i < |hs| ==> hs[i](ts[i], e) == Ok(ts[i + 1])
  }

  /** Every handler gets the event and the tables the one before it left; the first to raise is the outcome. */
  lemma {:induction false} HandlersTrace<P, R>(hs: seq<Handler<P, R>>, t: Tables<R>, e: Event<P>)
    returns (ts: seq<Tables<R>>)
    ensures match ApplyAll(hs, t, e)
            case Ok(last) => Trace(hs, t, e, ts) && ts[|hs|] == last
            case Err(reason) =>
              && 1 <= |ts| <= |hs| && Trace(hs[..|ts| - 1], t, e, ts)
              && hs[|ts| - 1](ts[|ts| - 1], e) == Err(reason)
  {
    if hs == [] {
      ts := [t];
    } else {
      var n := |hs| - 1;
      ts := HandlersTrace(hs[..n], t, e);
      if ApplyAll(hs[..n], t, e).Err? {
        assert hs[..n][..|ts| - 1] == hs[..|ts| - 1];
      } else if ApplyAll(hs, t, e).Ok? {
        ts := ts + [ApplyAll(hs, t, e).value];
      }
    }
  }

  lemma {:induction false} ReplayStops<P, R>(g: Registered<P, R>, log: seq<Event<P>>, more: seq<Event<P>>)
    requires Replay(g, log).Err?
    ensures Replay(g, log + more) == Replay(g, log)
  {
    if more == [] {
      assert log + more == log;
    } else {
      assert (log + more)[..|log + more| - 1] == log + more[..|more| - 1];
      ReplayStops(g, log, more[..|more| - 1]);
    }
  }

  /**
   A replay begins with every registered table empty and no other, and goes on event by event: `states` are the
   tables before, between and after the events, each from the one before by the handlers of the event's type.
   */
  lemma {:induction false} ReplaySteps<P, R>(g: Registered<P, R>, log: seq<Event<P>>) returns (states: seq<Tables<R>>)
    requires Replay(g, log).Ok?
    ensures |states| == |log| + 1 && Replay(g, log) == Ok(states[|log|])
    ensures states[0].Keys == (set t | t in g.tables) && forall t :: t in states[0] ==> states[0][t] == []
    ensures forall i :: 0 <= i < |log| ==>
              ApplyAll(g.HandlersFor(log[i].eventType), states[i], log[i]) == Ok(states[i + 1])
  {
    if log == [] {
      states := [g.Empty()];
    } else {
      var front := log[..|log| - 1];
      states := ReplaySteps(g, front);
      assert forall i :: 0 <= i < |front| ==> front[i] == log[i];
      states := states + [Replay(g, log).value];
    }
  }

  /** The handlers of one event, in registration order. */
  method RunHandlers<P, R>(hs: seq<Handler<P, R>>, t: Tables<R>, e: Event<P>) returns (r: Result<Tables<R>, string>)
    ensures r == ApplyAll(hs, t, e)
  {
    var now := t;
    for i := 0 to |hs|
      invariant ApplyAll(hs[..i], t, e) == Ok(now)
    {
      assert hs[..i + 1][..i] == hs[..i];
      r := hs[i](now, e);
      if r.Err? {
        ApplyAllStops(hs[..i + 1], hs[i + 1..], t, e);
        assert hs[..i + 1] + hs[i + 1..] == hs;
        return;
      }
      now := r.value;
    }
    assert hs[..|hs|] == hs;
    r := Ok(now);
  }

  /** Clears the registered tables and replays the whole log through the handlers. */
  method Rebuild<P, R>(g: Registered<P, R>, log: seq<Event<P>>) returns (r: Result<Tables<R>, string>)
    ensures r == Replay(g, log)
  {
    var now: Tables<R> := map[];
    for k := 0 to |g.tables|
      invariant now == map t | t in g.tables[..k] :: []
    {
      now := now[g.tables[k] := []];
      assert g.tables[..k + 1] == g.tables[..k] + [g.tables[k]];
    }
    assert g.tables[..|g.tables|] == g.tables;
    for i := 0 to |log|
      invariant Replay(g, log[..i]) == Ok(now)
    {
      assert log[..i + 1] == log[..i] + [log[i]];
      r := RunHandlers(g.HandlersFor(log[i].eventType), now, log[i]);
      if r.Err? {
        ReplayStops(g, log[..i + 1], log[i + 1..]);
        assert log[..i + 1] + log[i + 1..] == log;
        return;
      }
      now := r.value;
    }
    assert log[..|log|] == log;
    r := Ok(now);
  }
}
