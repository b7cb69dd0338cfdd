/** The sidecar's event relay: poller, broadcast, and one streaming client (sidecar/src/lib.rs). */
module Relay {
  import opened Results

  datatype Msg = Msg(seqNo: nat, eventType: string, payload: string)

  /** Sequence numbers are positive and strictly increasing. */
  ghost predicate Increasing(log: seq<Msg>) {
    (forall i :: 0 <= i < |log| ==> log[i].seqNo > 0) &&
    forall i, j :: 0 <= i < j < |log| ==> log[i].seqNo < log[j].seqNo
  }

  /** The sequence number of the `n`-th row, or zero before the first. */
  function SeqAt(log: seq<Msg>, n: nat): nat
    requires n <= |log|
  {
    if n == 0 then 0 else log[n - 1].seqNo
  }

  predicate Matches(channel: string, m: Msg) {
    channel == "all" || channel == m.eventType
  }

  /** The messages of a channel, in order. */
  function Filtered(channel: string, ms: seq<Msg>): seq<Msg> {
    if ms == [] then []
    else Filtered(channel, ms[..|ms| - 1]) + if Matches(channel, ms[|ms| - 1]) then [ms[|ms| - 1]] else []
  }

  /** The rows the poller's query selects. */
  function RowsAfter(log: seq<Msg>, hw: nat): seq<Msg> {
    if log == [] then []
    else RowsAfter(log[..|log| - 1], hw) + if log[|log| - 1].seqNo > hw then [log[|log| - 1]] else []
  }

  lemma {:induction false} NoRowsAfter(log: seq<Msg>, hw: nat)
    requires forall i :: 0 <= i < |log| ==> log[i].seqNo <= hw
    ensures RowsAfter(log, hw) == []
  {
    if log != [] {
      NoRowsAfter(log[..|log| - 1], hw);
    }
  }

  /** A row lies above the high water of the first `n` rows exactly when it is not among them. */
  lemma AboveSeqAt(log: seq<Msg>, n: nat, at: nat)
    requires Increasing(log) && n <= |log| && at < |log|
    ensures log[at].seqNo > SeqAt(log, n) <==> n <= at
  {
  }

  lemma IncreasingPrefix(log: seq<Msg>, n: nat)
    requires Increasing(log) && n <= |log|
    ensures Increasing(log[..n])
  {
  }

  lemma {:induction false} RowsAfterIsSuffix(log: seq<Msg>, n: nat)
    requires Increasing(log) && n <= |log|
    ensures RowsAfter(log, SeqAt(log, n)) == log[n..]
  {
    if n == |log| {
      forall i | 0 <= i < |log| ensures log[i].seqNo <= SeqAt(log, n) {
        AboveSeqAt(log, n, i);
      }
      NoRowsAfter(log, SeqAt(log, n));
    } else {
      var front, last := log[..|log| - 1], log[|log| - 1];
      IncreasingPrefix(log, |log| - 1);
      RowsAfterIsSuffix(front, n);
      assert SeqAt(front, n) == SeqAt(log, n);
      AboveSeqAt(log, n, |log| - 1);
      assert RowsAfter(log, SeqAt(log, n)) == RowsAfter(front, SeqAt(log, n)) + [last];
      assert log[n..] == front[n..] + [last];
    }
  }

  // --- the poller and the backlog reader ---

  class Broadcast {
    var sent: seq<Msg>

    constructor ()
      ensures sent == []
    {
      sent := [];
    }

    method Send(m: Msg)
      modifies this
      ensures sent == old(sent) + [m]
    {
      sent := sent + [m];
    }
  }

  /** The rows read before the failing one; all of them when no row fails. */
  function Readable(rows: seq<Msg>, failAt: Option<nat>): seq<Msg> {
    if failAt.Some? && failAt.value < |rows| then rows[..failAt.value] else rows
  }

  predicate Fails(rows: seq<Msg>, failAt: Option<nat>) {
    failAt.Some? && failAt.value < |rows|
  }

  /** Broadcasts the rows above the high water; a row that cannot be read leaves the high water behind. */
  method PollOnce(log: seq<Msg>, highWater: nat, tx: Broadcast, failAt: Option<nat>) returns (r: Result<nat, ()>)
    modifies tx
    ensures var rows := RowsAfter(log, highWater);
            && tx.sent == old(tx.sent) + Readable(rows, failAt)
            && r == if Fails(rows, failAt) then Err(()) else Ok(if rows == [] then highWater else rows[|rows| - 1].seqNo)
  {
    var rows := RowsAfter(log, highWater);
    var hw := highWater;
    for i := 0 to |rows|
      invariant tx.sent == old(tx.sent) + rows[..i] && !(failAt.Some? && failAt.value < i)
      invariant hw == if i == 0 then highWater else rows[i - 1].seqNo
    {
      if failAt == Some(i) {
        return Err(());
      }
      hw := rows[i].seqNo;
      tx.Send(rows[i]);
      assert rows[..i + 1] == rows[..i] + [rows[i]];
    }
    assert rows[..|rows|] == rows;
    r := Ok(hw);
  }

  /** The channel's history and the highest sequence number read, or an error at an unreadable row. */
  method Backlog(log: seq<Msg>, channel: string, failAt: Option<nat>) returns (r: Result<(seq<Msg>, nat), ()>)
    ensures r == if Fails(log, failAt) then Err(()) else Ok((Filtered(channel, log), SeqAt(log, |log|)))
  {
    var out: seq<Msg> := [];
    var maxSeq := 0;
    for i := 0 to |log|
      invariant out == Filtered(channel, log[..i]) && maxSeq == SeqAt(log, i)
      invariant !(failAt.Some? && failAt.value < i)
    {
      if failAt == Some(i) {
        return Err(());
      }
      maxSeq := log[i].seqNo;
      assert log[..i + 1][..i] == log[..i];
      if Matches(channel, log[i]) {
        out := out + [log[i]];
      }
    }
    assert log[..|log|] == log;
    r := Ok((out, maxSeq));
  }

  // --- the interleaving ---

  /** A poll under way: the rows still to send, and the last sequence number sent. */
  datatype Poll = Poll(rows: seq<Msg>, last: nat)

  datatype Client =
    | Away
    | Joined(queue: seq<Msg>)                                          // subscribed, backlog not read yet
    | Live(queue: seq<Msg>, afterSeq: nat, out: seq<Msg>)              // streaming

  datatype State = State(log: seq<Msg>, hw: nat, poll: Option<Poll>, client: Client)

  datatype Step =
    | Append(m: Msg)
    | BeginPoll
    | SendRow
    | EndPoll
    | FailPoll           // an unreadable row: what was sent stays sent, the high water stays
    | Subscribe
    | ReadBacklog
    | FailBacklog        // nothing is replayed, and nothing is held back
    | Receive
    | Lag(dropped: nat)  // the client's queue overran and lost its oldest messages

  function Enqueue(c: Client, m: Msg): Client {
    match c
    case Away => c
    case Joined(q) => Joined(q + [m])
    case Live(q, after, out) => Live(q + [m], after, out)
  }

  /** What the stream's filter lets through. */
  function Deliver(channel: string, after: nat, m: Msg): seq<Msg> {
    if m.seqNo > after && Matches(channel, m) then [m] else []
  }

  function Next(channel: string, s: State, step: Step): State {
    match step
    case Append(m) => if m.seqNo > SeqAt(s.log, |s.log|) then s.(log := s.log + [m]) else s
    case BeginPoll => if s.poll.None? then s.(poll := Some(Poll(RowsAfter(s.log, s.hw), s.hw))) else s
    case SendRow =>
      if s.poll.Some? && s.poll.value.rows != [] then
        var m := s.poll.value.rows[0];
        s.(poll := Some(Poll(s.poll.value.rows[1..], m.seqNo)), client := Enqueue(s.client, m))
      else s
    case EndPoll =>
      if s.poll.Some? && s.poll.value.rows == [] then s.(hw := s.poll.value.last, poll := None) else s
    case FailPoll => s.(poll := None)
    case Subscribe => if s.client.Away? then s.(client := Joined([])) else s
    case ReadBacklog =>
      if s.client.Joined? then
        s.(client := Live(s.client.queue, SeqAt(s.log, |s.log|), Filtered(channel, s.log)))
      else s
    case FailBacklog => if s.client.Joined? then s.(client := Live(s.client.queue, 0, [])) else s
    case Receive =>
      if s.client.Live? && s.client.queue != [] then
        var m := s.client.queue[0];
        s.(client := Live(s.client.queue[1..], s.client.afterSeq,
                          s.client.out + Deliver(channel, s.client.afterSeq, m)))
      else s
    case Lag(n) =>
      match s.client
      case Joined(q) => if n <= |q| then s.(client := Joined(q[n..])) else s
      case Live(q, after, out) => if n <= |q| then s.(client := Live(q[n..], after, out)) else s
      case Away => s
  }

  function Run(channel: string, s: State, steps: seq<Step>): State {
    if steps == [] then s else Next(channel, Run(channel, s, steps[..|steps| - 1]), steps[|steps| - 1])
  }

  // --- where everybody stands in the log ---

  /** The first `sent` rows have been broadcast, and a poll under way has the rows after them. */
  ghost predicate PollerAt(s: State, sent: nat) {
    sent <= |s.log| &&
    match s.poll
    case None => s.hw == SeqAt(s.log, sent)
    case Some(p) => p.last == SeqAt(s.log, sent) && p.rows <= s.log[sent..]
  }

  /** A queue holds the rows broadcast most recently. */
  ghost predicate QueueAt(log: seq<Msg>, q: seq<Msg>, sent: nat)
    requires sent <= |log|
  {
    |q| <= sent && q == log[sent - |q|..sent]
  }

  function Max(a: nat, b: nat): nat {
    if a < b then b else a
  }

  /** Everything received lies among the first `upTo` rows, matches the channel and is in order. */
  ghost predicate InOrder(channel: string, log: seq<Msg>, out: seq<Msg>, upTo: nat)
    requires upTo <= |log|
  {
    Increasing(out) && forall m :: m in out ==> Matches(channel, m) && m in log[..upTo]
  }

  /** The backlog covered the first `n` rows; what was received ends there or where the queue begins. */
  ghost predicate ClientAt(channel: string, s: State, sent: nat, n: nat)
    requires sent <= |s.log|
  {
    match s.client
    case Away => true
    case Joined(q) => QueueAt(s.log, q, sent)
    case Live(q, after, out) =>
      QueueAt(s.log, q, sent) && n <= |s.log| && after == SeqAt(s.log, n) &&
      InOrder(channel, s.log, out, Max(n, sent - |q|))
  }

  ghost predicate Stands(channel: string, s: State, sent: nat, n: nat) {
    Increasing(s.log) && PollerAt(s, sent) && ClientAt(channel, s, sent, n)
  }

  lemma {:induction false} FilteredIn(channel: string, ms: seq<Msg>)
    requires Increasing(ms)
    ensures Increasing(Filtered(channel, ms))
    ensures forall m :: m in Filtered(channel, ms) <==> m in ms && Matches(channel, m)
  {
    if ms != [] {
      var front := ms[..|ms| - 1];
      FilteredIn(channel, front);
      assert ms == front + [ms[|ms| - 1]];
      var f := Filtered(channel, front);
      assert forall i :: 0 <= i < |f| ==> f[i] in front;
    }
  }

  /** A message past the frontier extends what was received; one behind it is dropped. */
  lemma DeliverKeeps(channel: string, log: seq<Msg>, out: seq<Msg>, n: nat, at: nat)
    requires Increasing(log) && n <= |log| && at < |log| && InOrder(channel, log, out, Max(n, at))
    ensures InOrder(channel, log, out + Deliver(channel, SeqAt(log, n), log[at]), Max(n, at + 1))
  {
    var m := log[at];
    AboveSeqAt(log, n, at);
    if n <= at {
      assert log[..at + 1] == log[..at] + [m];
      forall i | 0 <= i < |out| ensures out[i].seqNo < m.seqNo {
        assert out[i] in out;
      }
    }
  }

  /** A poll fails before it has sent a row. */
  predicate Benign(s: State, step: Step) {
    step.FailPoll? && s.poll.Some? ==> s.poll.value.last == s.hw
  }

  /** Where a step leaves the poller. */
  function SentAfter(s: State, step: Step, sent: nat): nat {
    if step.SendRow? && s.poll.Some? && s.poll.value.rows != [] then sent + 1 else sent
  }

  /** Where a step leaves the backlog. */
  function ReadAfter(s: State, step: Step, n: nat): nat {
    if step.ReadBacklog? && s.client.Joined? then |s.log|
    else if step.FailBacklog? && s.client.Joined? then 0
    else n
  }

  lemma FirstPending(s: State, sent: nat)
    requires PollerAt(s, sent) && s.poll.Some? && s.poll.value.rows != []
    ensures sent < |s.log| && s.poll.value.rows[0] == s.log[sent]
    ensures s.poll.value.rows[1..] <= s.log[sent + 1..]
  {
    assert s.poll.value.rows[0] == s.log[sent..][0];
    assert s.log[sent..][1..] == s.log[sent + 1..];
  }

  lemma PollerKeeps(channel: string, s: State, step: Step, sent: nat)
    requires Increasing(s.log) && PollerAt(s, sent) && Benign(s, step) && !step.Append?
    ensures PollerAt(Next(channel, s, step), SentAfter(s, step, sent))
  {
    if step.BeginPoll? {
      RowsAfterIsSuffix(s.log, sent);
    } else if step.SendRow? && s.poll.Some? && s.poll.value.rows != [] {
      FirstPending(s, sent);
    }
  }

  lemma QueueGrows(log: seq<Msg>, q: seq<Msg>, sent: nat)
    requires sent < |log| && QueueAt(log, q, sent)
    ensures QueueAt(log, q + [log[sent]], sent + 1)
  {
  }

  lemma SendKeeps(channel: string, s: State, sent: nat, n: nat)
    requires Stands(channel, s, sent, n) && s.poll.Some? && s.poll.value.rows != []
    ensures sent < |s.log| && ClientAt(channel, Next(channel, s, SendRow), sent + 1, n)
  {
    FirstPending(s, sent);
    match s.client {
      case Away =>
      case Joined(q) => QueueGrows(s.log, q, sent);
      case Live(q, _, _) => QueueGrows(s.log, q, sent);
    }
  }

  lemma ReadKeeps(channel: string, s: State, sent: nat)
    requires Increasing(s.log) && sent <= |s.log| && s.client.Joined? && QueueAt(s.log, s.client.queue, sent)
    ensures ClientAt(channel, Next(channel, s, ReadBacklog), sent, |s.log|)
  {
    FilteredIn(channel, s.log);
    assert s.log[..|s.log|] == s.log;
  }

  lemma ReceiveKeeps(channel: string, s: State, sent: nat, n: nat)
    requires Stands(channel, s, sent, n) && s.client.Live? && s.client.queue != []
    ensures ClientAt(channel, Next(channel, s, Receive), sent, n)
  {
    var q := s.client.queue;
    DeliverKeeps(channel, s.log, s.client.out, n, sent - |q|);
    assert QueueAt(s.log, q[1..], sent);
  }

  lemma ClientKeeps(channel: string, s: State, step: Step, sent: nat, n: nat)
    requires Stands(channel, s, sent, n) && !step.Append?
    ensures Next(channel, s, step).log == s.log && SentAfter(s, step, sent) <= |s.log|
    ensures ClientAt(channel, Next(channel, s, step), SentAfter(s, step, sent), ReadAfter(s, step, n))
  {
    match step {
      case SendRow => if s.poll.Some? && s.poll.value.rows != [] { SendKeeps(channel, s, sent, n); }
      case ReadBacklog => if s.client.Joined? { ReadKeeps(channel, s, sent); }
      case Receive => if s.client.Live? && s.client.queue != [] { ReceiveKeeps(channel, s, sent, n); }
      case Lag(k) => LagKeeps(channel, s, k, sent, n);
      case _ =>
    }
  }

  lemma LagKeeps(channel: string, s: State, k: nat, sent: nat, n: nat)
    requires Stands(channel, s, sent, n)
    ensures ClientAt(channel, Next(channel, s, Lag(k)), sent, n)
  {
    if s.client.Live? && k <= |s.client.queue| {
      var q := s.client.queue;
      assert s.log[..Max(n, sent - |q|)] <= s.log[..Max(n, sent - |q| + k)];
    }
  }

  lemma AppendKeeps(channel: string, s: State, m: Msg, sent: nat, n: nat)
    requires Stands(channel, s, sent, n) && m.seqNo > SeqAt(s.log, |s.log|)
    ensures ClientAt(channel, s.(log := s.log + [m]), sent, n)
  {
    if s.client.Live? {
      var f := Max(n, sent - |s.client.queue|);
      assert (s.log + [m])[..f] == s.log[..f];
    }
  }

  lemma RowAdded(channel: string, s: State, m: Msg, sent: nat, n: nat)
    requires Stands(channel, s, sent, n) && m.seqNo > SeqAt(s.log, |s.log|)
    ensures Stands(channel, s.(log := s.log + [m]), sent, n)
  {
    AppendKeeps(channel, s, m, sent, n);
    RowIncreases(s.log, m);
    if s.poll.Some? {
      assert (s.log + [m])[sent..] == s.log[sent..] + [m];
    }
  }

  lemma RowIncreases(log: seq<Msg>, m: Msg)
    requires Increasing(log) && m.seqNo > SeqAt(log, |log|)
    ensures Increasing(log + [m])
  {
  }

  /** Every step keeps everybody where the log says, unless a poll fails after a row it sent. */
  lemma StepStands(channel: string, s: State, step: Step, sent: nat, n: nat)
    requires Stands(channel, s, sent, n) && Benign(s, step)
    ensures Stands(channel, Next(channel, s, step), SentAfter(s, step, sent), ReadAfter(s, step, n))
  {
    if step.Append? {
      if step.m.seqNo > SeqAt(s.log, |s.log|) {
        RowAdded(channel, s, step.m, sent, n);
      }
    } else {
      PollerKeeps(channel, s, step, sent);
      ClientKeeps(channel, s, step, sent, n);
    }
  }

  function Start(log: seq<Msg>): State {
    State(log, 0, None, Away)
  }

  /** No poll of the run fails after a row it sent. */
  predicate NoTornPoll(channel: string, s: State, steps: seq<Step>) {
    steps == [] ||
    (NoTornPoll(channel, s, steps[..|steps| - 1]) && Benign(Run(channel, s, steps[..|steps| - 1]), steps[|steps| - 1]))
  }

  lemma {:induction false} RunStands(channel: string, log: seq<Msg>, steps: seq<Step>) returns (sent: nat, n: nat)
    requires Increasing(log) && NoTornPoll(channel, Start(log), steps)
    ensures Stands(channel, Run(channel, Start(log), steps), sent, n)
  {
    if steps == [] {
      sent, n := 0, 0;
    } else {
      var front, last := steps[..|steps| - 1], steps[|steps| - 1];
      var s0, n0 := RunStands(channel, log, front);
      var s := Run(channel, Start(log), front);
      StepStands(channel, s, last, s0, n0);
      sent, n := SentAfter(s, last, s0), ReadAfter(s, last, n0);
    }
  }

  /**
   Whatever is appended, polled, lagged, or lost with the backlog, a client receives a strictly
   increasing selection of its channel's log, as long as no poll fails after a row it sent.
   */
  lemma DeliveredInOrder(channel: string, log: seq<Msg>, steps: seq<Step>)
    requires Increasing(log) && NoTornPoll(channel, Start(log), steps)
    ensures var s := Run(channel, Start(log), steps);
            s.client.Live? ==>
              Increasing(s.client.out) && forall m :: m in s.client.out ==> m in Filtered(channel, s.log)
    ensures var s := Run(channel, Start(log), steps);
            s.client.Live? ==> forall m :: m in s.client.out ==> m in s.log && (channel == "all" || m.eventType == channel)
  {
    var s := Run(channel, Start(log), steps);
    var sent, n := RunStands(channel, log, steps);
    FilteredIn(channel, s.log);
  }

  lemma IncreasingSuffix(log: seq<Msg>, n: nat)
    requires Increasing(log) && n <= |log|
    ensures Increasing(log[n..])
  {
  }

  lemma RepeatsBreakOrder(first: seq<Msg>, second: seq<Msg>)
    requires first <= second && first != []
    ensures !Increasing(first + second)
  {
    assert (first + second)[0] == (first + second)[|first|];
  }

  /** A poll that fails is repeated from its start: what is broadcast stays in order only if nothing was sent. */
  lemma TornPollRepeats(log: seq<Msg>, more: seq<Msg>, n: nat, failAt: nat)
    requires Increasing(log) && Increasing(log + more) && n <= |log| && failAt < |RowsAfter(log, SeqAt(log, n))|
    ensures var first := Readable(RowsAfter(log, SeqAt(log, n)), Some(failAt));
            Increasing(first + RowsAfter(log + more, SeqAt(log, n))) <==> failAt == 0
  {
    RowsAfterIsSuffix(log, n);
    RowsAfterIsSuffix(log + more, n);
    IncreasingSuffix(log + more, n);
    var first, second := log[n..][..failAt], (log + more)[n..];
    assert second == log[n..] + more;
    if failAt == 0 {
      assert first + second == second;
    } else {
      RepeatsBreakOrder(first, second);
    }
  }

  // --- no gaps ---

  /** What was received is the channel's log from `from` up to the backlog's end or the queue's begin. */
  ghost predicate Exact(channel: string, log: seq<Msg>, c: Client, sent: nat, n: nat, from: nat)
    requires sent <= |log| && n <= |log|
  {
    c.Live? && |c.queue| <= sent ==>
      var f := Max(n, sent - |c.queue|);
      from <= f && c.out == Filtered(channel, log[from..f])
  }

  ghost predicate ExactAt(channel: string, s: State, sent: nat, n: nat, from: nat) {
    Stands(channel, s, sent, n) && n <= |s.log| && Exact(channel, s.log, s.client, sent, n, from)
  }

  /** Where what a client receives begins: at the start of the log, or at its queue if the backlog was lost. */
  function FromAfter(s: State, step: Step, sent: nat, from: nat): nat {
    if step.ReadBacklog? && s.client.Joined? then 0
    else if step.FailBacklog? && s.client.Joined? && |s.client.queue| <= sent then sent - |s.client.queue|
    else from
  }

  lemma FilteredNext(channel: string, log: seq<Msg>, from: nat, at: nat)
    requires from <= at < |log|
    ensures Filtered(channel, log[from..at + 1]) == Filtered(channel, log[from..at]) + Filtered(channel, [log[at]])
  {
    assert log[from..at + 1][..at - from] == log[from..at];
    assert [log[at]][..0] == [];
  }

  lemma FrontierMoves(channel: string, log: seq<Msg>, out: seq<Msg>, n: nat, at: nat, from: nat)
    requires Increasing(log) && n <= |log| && at < |log| && from <= Max(n, at)
    requires out == Filtered(channel, log[from..Max(n, at)])
    ensures out + Deliver(channel, SeqAt(log, n), log[at]) == Filtered(channel, log[from..Max(n, at + 1)])
  {
    if n <= at {
      FilteredNext(channel, log, from, at);
    }
  }

  lemma ReceiveExact(channel: string, log: seq<Msg>, q: seq<Msg>, out: seq<Msg>, sent: nat, n: nat, from: nat)
    requires Increasing(log) && sent <= |log| && n <= |log| && QueueAt(log, q, sent) && q != []
    requires Exact(channel, log, Live(q, SeqAt(log, n), out), sent, n, from)
    ensures Exact(channel, log, Live(q[1..], SeqAt(log, n), out + Deliver(channel, SeqAt(log, n), q[0])), sent, n, from)
  {
    assert q[0] == log[sent - |q|];
    FrontierMoves(channel, log, out, n, sent - |q|, from);
  }

  lemma AppendExact(channel: string, log: seq<Msg>, m: Msg, c: Client, sent: nat, n: nat, from: nat)
    requires sent <= |log| && n <= |log| && Exact(channel, log, c, sent, n, from)
    ensures Exact(channel, log + [m], c, sent, n, from)
  {
    if c.Live? && |c.queue| <= sent {
      var f := Max(n, sent - |c.queue|);
      assert (log + [m])[from..f] == log[from..f];
    }
  }

  lemma BacklogExact(channel: string, log: seq<Msg>, q: seq<Msg>, sent: nat)
    requires sent <= |log| && |q| <= sent
    ensures Exact(channel, log, Live(q, SeqAt(log, |log|), Filtered(channel, log)), sent, |log|, 0)
    ensures Exact(channel, log, Live(q, 0, []), sent, 0, sent - |q|)
  {
    assert log[0..|log|] == log;
  }

  ghost predicate Placed(s: State, sent: nat, n: nat) {
    Increasing(s.log) && sent <= |s.log| && n <= |s.log| &&
    match s.client
    case Away => true
    case Joined(q) => QueueAt(s.log, q, sent)
    case Live(q, after, out) => QueueAt(s.log, q, sent) && after == SeqAt(s.log, n)
  }

  lemma ClientExact(channel: string, s: State, step: Step, sent: nat, n: nat, from: nat)
    requires Placed(s, sent, n) && Exact(channel, s.log, s.client, sent, n, from)
    requires !(step.Lag? && s.client.Live?)
    requires SentAfter(s, step, sent) <= |s.log|
    ensures |s.log| <= |Next(channel, s, step).log|
    ensures Exact(channel, Next(channel, s, step).log, Next(channel, s, step).client, SentAfter(s, step, sent),
                  ReadAfter(s, step, n), FromAfter(s, step, sent, from))
  {
    match step {
      case Append(m) => AppendExact(channel, s.log, m, s.client, sent, n, from);
      case Receive =>
        if s.client.Live? && s.client.queue != [] {
          ReceiveExact(channel, s.log, s.client.queue, s.client.out, sent, n, from);
        }
      case ReadBacklog => if s.client.Joined? { BacklogExact(channel, s.log, s.client.queue, sent); }
      case FailBacklog => if s.client.Joined? { BacklogExact(channel, s.log, s.client.queue, sent); }
      case _ =>
    }
  }

  lemma StepExact(channel: string, s: State, step: Step, sent: nat, n: nat, from: nat)
    requires ExactAt(channel, s, sent, n, from) && Benign(s, step) && !(step.Lag? && s.client.Live?)
    ensures ExactAt(channel, Next(channel, s, step), SentAfter(s, step, sent), ReadAfter(s, step, n),
                    FromAfter(s, step, sent, from))
  {
    StepStands(channel, s, step, sent, n);
    if step.SendRow? && s.poll.Some? && s.poll.value.rows != [] {
      FirstPending(s, sent);
    }
    ClientExact(channel, s, step, sent, n, from);
  }

  /** No torn poll, and no lag once the client is streaming. */
  predicate Smooth(channel: string, s: State, steps: seq<Step>) {
    steps == [] ||
    (var front, last := steps[..|steps| - 1], steps[|steps| - 1];
     Smooth(channel, s, front) && Benign(Run(channel, s, front), last) &&
     !(last.Lag? && Run(channel, s, front).client.Live?))
  }

  lemma {:induction false} RunExact(channel: string, log: seq<Msg>, steps: seq<Step>)
    returns (sent: nat, n: nat, from: nat)
    requires Increasing(log) && Smooth(channel, Start(log), steps)
    ensures ExactAt(channel, Run(channel, Start(log), steps), sent, n, from)
    ensures FailBacklog !in steps ==> from == 0
  {
    if steps == [] {
      sent, n, from := 0, 0, 0;
    } else {
      var front, last := steps[..|steps| - 1], steps[|steps| - 1];
      assert steps == front + [last];
      var s0, n0, f0 := RunExact(channel, log, front);
      var s := Run(channel, Start(log), front);
      StepExact(channel, s, last, s0, n0, f0);
      sent, n, from := SentAfter(s, last, s0), ReadAfter(s, last, n0), FromAfter(s, last, s0, f0);
    }
  }

  /** The poller has sent every row and the client has taken every message. */
  predicate Drained(s: State) {
    s.poll.None? && s.hw == SeqAt(s.log, |s.log|) && s.client.Live? && s.client.queue == []
  }

  /**
   Without lag a streaming client has no gaps: it holds its channel's log from some row to some row.
   It begins at the first row unless the backlog read failed, and it ends at the last row, each event
   exactly once, when the poller has caught up and the queue is drained.
   */
  lemma DeliveredWithoutGaps(channel: string, log: seq<Msg>, steps: seq<Step>) returns (from: nat, upTo: nat)
    requires Increasing(log) && Smooth(channel, Start(log), steps)
    requires Run(channel, Start(log), steps).client.Live?
    ensures var s := Run(channel, Start(log), steps);
            && from <= upTo <= |s.log| && s.client.out == Filtered(channel, s.log[from..upTo])
            && (FailBacklog !in steps ==> from == 0)
            && (Drained(s) ==> upTo == |s.log|)
            && (Drained(s) && FailBacklog !in steps ==> s.client.out == Filtered(channel, s.log))
    ensures var s := Run(channel, Start(log), steps);
            forall m :: m in s.client.out <==> m in s.log[from..upTo] && (channel == "all" || m.eventType == channel)
  {
    var s := Run(channel, Start(log), steps);
    var sent, n, f := RunExact(channel, log, steps);
    from, upTo := f, Max(n, sent - |s.client.queue|);
    FilteredIn(channel, s.log[from..upTo]);
    if Drained(s) {
      assert sent == |s.log|;
      assert s.log[0..|s.log|] == s.log;
    }
  }
}
