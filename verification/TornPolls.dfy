/**
 What a poll that fails half way does to a client that is streaming: the next poll starts over, so the
 rows that were sent come again (sidecar/src/lib.rs).
 */
module TornPolls {
  import opened Results
  import opened Relay

  /** What the stream lets through of the first `k` messages of a stretch. */
  function Passed(channel: string, after: nat, ms: seq<Msg>, k: nat): seq<Msg>
    requires k <= |ms|
  {
    if k == 0 then [] else Passed(channel, after, ms, k - 1) + Deliver(channel, after, ms[k - 1])
  }

  function Delivered(channel: string, after: nat, ms: seq<Msg>): seq<Msg> {
    Passed(channel, after, ms, |ms|)
  }

  lemma Concat3(a: seq<Msg>, b: seq<Msg>, c: seq<Msg>)
    ensures a + b + c == a + (b + c)
  {
  }

  lemma {:induction false} PassedFront(channel: string, after: nat, a: seq<Msg>, b: seq<Msg>, k: nat)
    requires k <= |a|
    ensures Passed(channel, after, a + b, k) == Passed(channel, after, a, k)
  {
    if k > 0 {
      PassedFront(channel, after, a, b, k - 1);
    }
  }

  lemma {:induction false} PassedConcat(channel: string, after: nat, a: seq<Msg>, b: seq<Msg>, k: nat)
    requires k <= |b|
    ensures Passed(channel, after, a + b, |a| + k) == Passed(channel, after, a, |a|) + Passed(channel, after, b, k)
  {
    if k == 0 {
      PassedFront(channel, after, a, b, |a|);
    } else {
      PassedConcat(channel, after, a, b, k - 1);
      Concat3(Passed(channel, after, a, |a|), Passed(channel, after, b, k - 1), Deliver(channel, after, b[k - 1]));
    }
  }

  lemma DeliveredConcat(channel: string, after: nat, a: seq<Msg>, b: seq<Msg>)
    ensures Delivered(channel, after, a + b) == Delivered(channel, after, a) + Delivered(channel, after, b)
  {
    PassedConcat(channel, after, a, b, |b|);
  }

  // --- the statements of two polls ---

  function Receives(k: nat): seq<Step> {
    if k == 0 then [] else Receives(k - 1) + [Receive]
  }

  function Appends(ms: seq<Msg>): seq<Step> {
    if ms == [] then [] else Appends(ms[..|ms| - 1]) + [Append(ms[|ms| - 1])]
  }

  /** The beginning of a poll that has sent `k` rows. */
  function Sends(k: nat): seq<Step> {
    if k == 0 then [BeginPoll] else Sends(k - 1) + [SendRow]
  }

  /** A poll that sends `k` rows and meets one it cannot read. */
  function FailedPoll(k: nat): seq<Step> {
    Sends(k) + [FailPoll]
  }

  function FullPoll(k: nat): seq<Step> {
    Sends(k) + [EndPoll]
  }

  /** A poll fails after `failAt` rows, rows are appended, the next poll sends all, and the client takes all. */
  function Torn(failAt: nat, more: seq<Msg>, total: nat): seq<Step> {
    FailedPoll(failAt) + (Appends(more) + (FullPoll(total) + Receives(failAt + total)))
  }

  lemma {:induction false} RunConcat(channel: string, s: State, a: seq<Step>, b: seq<Step>)
    ensures Run(channel, s, a + b) == Run(channel, Run(channel, s, a), b)
  {
    if b == [] {
      assert a + b == a;
    } else {
      assert (a + b)[..|a + b| - 1] == a + b[..|b| - 1];
      RunConcat(channel, s, a, b[..|b| - 1]);
    }
  }

  lemma RunOne(channel: string, s: State, steps: seq<Step>, step: Step)
    ensures Run(channel, s, steps + [step]) == Next(channel, Run(channel, s, steps), step)
  {
    assert (steps + [step])[..|steps|] == steps;
  }

  // --- sending ---

  /** The poll under way has sent `k` of its rows to a streaming client. */
  function Sending(s: State, rows: seq<Msg>, k: nat): State
    requires k <= |rows| && s.client.Live?
  {
    s.(poll := Some(Poll(rows[k..], if k == 0 then s.hw else rows[k - 1].seqNo)),
       client := Live(s.client.queue + rows[..k], s.client.afterSeq, s.client.out))
  }

  lemma SendsNone(channel: string, s: State)
    requires s.poll.None? && s.client.Live?
    ensures Run(channel, s, [BeginPoll]) == Sending(s, RowsAfter(s.log, s.hw), 0)
  {
    RunOne(channel, s, [], BeginPoll);
    assert [] + [BeginPoll] == [BeginPoll];
    assert s.client.queue + [] == s.client.queue;
  }

  lemma SendsNext(channel: string, s: State, rows: seq<Msg>, k: nat)
    requires s.client.Live? && k < |rows|
    ensures Next(channel, Sending(s, rows, k), SendRow) == Sending(s, rows, k + 1)
  {
    assert rows[k..][0] == rows[k] && rows[k..][1..] == rows[k + 1..];
    assert s.client.queue + rows[..k] + [rows[k]] == s.client.queue + rows[..k + 1];
  }

  lemma SendsOneMore(channel: string, s: State, rows: seq<Msg>, k: nat, steps: seq<Step>)
    requires s.client.Live? && k < |rows| && Run(channel, s, steps) == Sending(s, rows, k)
    ensures Run(channel, s, steps + [SendRow]) == Sending(s, rows, k + 1)
  {
    RunOne(channel, s, steps, SendRow);
    SendsNext(channel, s, rows, k);
  }

  lemma {:induction false} RunSends(channel: string, s: State, rows: seq<Msg>, k: nat)
    requires s.poll.None? && s.client.Live? && rows == RowsAfter(s.log, s.hw) && k <= |rows|
    ensures Run(channel, s, Sends(k)) == Sending(s, rows, k)
  {
    if k == 0 {
      SendsNone(channel, s);
    } else {
      RunSends(channel, s, rows, k - 1);
      SendsOneMore(channel, s, rows, k - 1, Sends(k - 1));
    }
  }

  /** A streaming client with these messages waiting. */
  function Waiting(c: Client, queue: seq<Msg>): Client
    requires c.Live?
  {
    Live(queue, c.afterSeq, c.out)
  }

  lemma FailedIs(channel: string, s: State, rows: seq<Msg>, k: nat)
    requires s.client.Live? && s.client.queue == [] && k <= |rows| && s.poll.None?
    ensures Next(channel, Sending(s, rows, k), FailPoll) == s.(client := Waiting(s.client, rows[..k]))
  {
    assert [] + rows[..k] == rows[..k];
  }

  lemma RunFailed(channel: string, s: State, sent: nat, k: nat, rest: seq<Step>)
    requires s.poll.None? && s.client.Live? && s.client.queue == []
    requires Increasing(s.log) && sent + k <= |s.log| && s.hw == SeqAt(s.log, sent)
    ensures Run(channel, s, FailedPoll(k) + rest) ==
            Run(channel, s.(client := Waiting(s.client, s.log[sent..][..k])), rest)
  {
    var rows := s.log[sent..];
    RowsAfterIsSuffix(s.log, sent);
    RunSends(channel, s, rows, k);
    RunOne(channel, s, Sends(k), FailPoll);
    FailedIs(channel, s, rows, k);
    RunConcat(channel, s, FailedPoll(k), rest);
  }

  lemma FullIs(channel: string, s: State, rows: seq<Msg>)
    requires s.client.Live? && rows != [] && s.poll.None?
    ensures Next(channel, Sending(s, rows, |rows|), EndPoll) ==
            s.(hw := rows[|rows| - 1].seqNo, client := Waiting(s.client, s.client.queue + rows))
  {
    assert rows[..|rows|] == rows && rows[|rows|..] == [];
  }

  lemma RunFull(channel: string, s: State, sent: nat, rest: seq<Step>)
    requires s.poll.None? && s.client.Live?
    requires Increasing(s.log) && sent < |s.log| && s.hw == SeqAt(s.log, sent)
    ensures Run(channel, s, FullPoll(|s.log| - sent) + rest) ==
            Run(channel, s.(hw := SeqAt(s.log, |s.log|),
                            client := Waiting(s.client, s.client.queue + s.log[sent..])), rest)
  {
    var rows := s.log[sent..];
    RowsAfterIsSuffix(s.log, sent);
    RunSends(channel, s, rows, |rows|);
    RunOne(channel, s, Sends(|rows|), EndPoll);
    FullIs(channel, s, rows);
    RunConcat(channel, s, FullPoll(|rows|), rest);
  }

  lemma AppendsFirst(channel: string, s: State, more: seq<Msg>, rest: seq<Step>)
    requires Increasing(s.log + more)
    ensures Run(channel, s, Appends(more) + rest) == Run(channel, s.(log := s.log + more), rest)
  {
    RunAppends(channel, s, more);
    RunConcat(channel, s, Appends(more), rest);
  }

  lemma {:induction false} RunAppends(channel: string, s: State, more: seq<Msg>)
    requires Increasing(s.log + more)
    ensures Run(channel, s, Appends(more)) == s.(log := s.log + more)
  {
    if more == [] {
      assert s.log + more == s.log;
    } else {
      var front, m := more[..|more| - 1], more[|more| - 1];
      AppendRises(s.log + front, m, s.log + more);
      RunAppends(channel, s, front);
      RunOne(channel, s, Appends(front), Append(m));
    }
  }

  lemma AppendRises(log: seq<Msg>, m: Msg, longer: seq<Msg>)
    requires Increasing(longer) && |longer| == |log| + 1 && longer[|log|] == m && longer[..|log|] == log
    ensures Increasing(log) && m.seqNo > SeqAt(log, |log|) && longer == log + [m]
  {
    IncreasingPrefix(longer, |log|);
  }

  // --- receiving ---

  /** A streaming client has taken the first `k` messages of its queue. */
  function Receiving(channel: string, s: State, k: nat): State
    requires s.client.Live? && k <= |s.client.queue|
  {
    s.(client := Live(s.client.queue[k..], s.client.afterSeq,
                      s.client.out + Passed(channel, s.client.afterSeq, s.client.queue, k)))
  }

  lemma ReceivesNone(channel: string, s: State)
    requires s.client.Live?
    ensures Receiving(channel, s, 0) == s
  {
    assert s.client.queue[0..] == s.client.queue;
    assert s.client.out + [] == s.client.out;
  }

  lemma ReceivesNext(channel: string, s: State, k: nat)
    requires s.client.Live? && k < |s.client.queue|
    ensures Next(channel, Receiving(channel, s, k), Receive) == Receiving(channel, s, k + 1)
  {
    var q, after := s.client.queue, s.client.afterSeq;
    assert q[k..][0] == q[k] && q[k..][1..] == q[k + 1..];
    Concat3(s.client.out, Passed(channel, after, q, k), Deliver(channel, after, q[k]));
  }

  lemma ReceivesOneMore(channel: string, s: State, k: nat, steps: seq<Step>)
    requires s.client.Live? && k < |s.client.queue| && Run(channel, s, steps) == Receiving(channel, s, k)
    ensures Run(channel, s, steps + [Receive]) == Receiving(channel, s, k + 1)
  {
    RunOne(channel, s, steps, Receive);
    ReceivesNext(channel, s, k);
  }

  lemma {:induction false} RunReceives(channel: string, s: State, k: nat)
    requires s.client.Live? && k <= |s.client.queue|
    ensures Run(channel, s, Receives(k)) == Receiving(channel, s, k)
  {
    if k == 0 {
      ReceivesNone(channel, s);
    } else {
      RunReceives(channel, s, k - 1);
      ReceivesOneMore(channel, s, k - 1, Receives(k - 1));
    }
  }

  lemma ReceivesAll(channel: string, s: State)
    requires s.client.Live?
    ensures Receiving(channel, s, |s.client.queue|).client ==
            Live([], s.client.afterSeq, s.client.out + Delivered(channel, s.client.afterSeq, s.client.queue))
  {
  }

  lemma Drains(channel: string, s: State, a: seq<Msg>, b: seq<Msg>, k: nat)
    requires s.client.Live? && s.client.queue == a + b && k == |a| + |b|
    ensures var after := s.client.afterSeq;
            Run(channel, s, Receives(k)).client ==
            Live([], after, s.client.out + (Delivered(channel, after, a) + Delivered(channel, after, b)))
  {
    RunReceives(channel, s, k);
    ReceivesAll(channel, s);
    DeliveredConcat(channel, s.client.afterSeq, a, b);
  }

  // --- the two polls together ---

  /** From the failed poll on: what is appended, and the poll that starts over. */
  lemma TornThen(channel: string, s: State, sent: nat, more: seq<Msg>, grown: State, rest: seq<Step>)
    requires s.client.Live? && s.poll.None? && sent < |s.log| && s.hw == SeqAt(s.log, sent)
    requires grown == s.(log := s.log + more) && Increasing(grown.log) && grown.hw == SeqAt(grown.log, sent)
    ensures Run(channel, s, Appends(more) + (FullPoll(|grown.log| - sent) + rest)) ==
            Run(channel, State(grown.log, SeqAt(grown.log, |grown.log|), None,
                               Waiting(s.client, s.client.queue + grown.log[sent..])), rest)
  {
    AppendsFirst(channel, s, more, FullPoll(|grown.log| - sent) + rest);
    RunFull(channel, grown, sent, rest);
  }

  /** The client is left with the first stretch, and after the second poll with both. */
  lemma TornQueue(channel: string, s: State, sent: nat, failAt: nat, more: seq<Msg>, log: seq<Msg>, rest: seq<Step>)
    requires s.client.Live? && s.client.queue == [] && s.poll.None?
    requires Increasing(s.log) && log == s.log + more && Increasing(log)
    requires sent + failAt < |s.log| && s.hw == SeqAt(s.log, sent)
    ensures Run(channel, s, FailedPoll(failAt) + (Appends(more) + (FullPoll(|log| - sent) + rest))) ==
            Run(channel, State(log, SeqAt(log, |log|), None,
                               Waiting(s.client, s.log[sent..][..failAt] + log[sent..])), rest)
  {
    var torn := s.(client := Waiting(s.client, s.log[sent..][..failAt]));
    RunFailed(channel, s, sent, failAt, Appends(more) + (FullPoll(|log| - sent) + rest));
    assert SeqAt(log, sent) == SeqAt(s.log, sent);
    TornThen(channel, torn, sent, more, torn.(log := log), rest);
  }

  lemma TornDelivers(channel: string, s: State, sent: nat, failAt: nat, more: seq<Msg>, log: seq<Msg>)
    requires s.client.Live? && s.client.queue == [] && s.poll.None?
    requires Increasing(s.log) && log == s.log + more && Increasing(log)
    requires sent + failAt < |s.log| && s.hw == SeqAt(s.log, sent)
    ensures var c := s.client;
            Run(channel, s, Torn(failAt, more, |log| - sent)).client ==
            Live([], c.afterSeq, c.out + (Delivered(channel, c.afterSeq, s.log[sent..][..failAt]) +
                                          Delivered(channel, c.afterSeq, log[sent..])))
  {
    var first := s.log[sent..][..failAt];
    TornQueue(channel, s, sent, failAt, more, log, Receives(failAt + (|log| - sent)));
    var polled := State(log, SeqAt(log, |log|), None, Waiting(s.client, first + log[sent..]));
    Drains(channel, polled, first, log[sent..], failAt + (|log| - sent));
  }

  lemma PassedMore(channel: string, log: seq<Msg>, out: seq<Msg>, n: nat, at: nat, before: seq<Msg>)
    requires Increasing(log) && n <= |log| && at < |log| && InOrder(channel, log, out + before, Max(n, at))
    ensures InOrder(channel, log, out + (before + Deliver(channel, SeqAt(log, n), log[at])), Max(n, at + 1))
  {
    DeliverKeeps(channel, log, out + before, n, at);
    Concat3(out, before, Deliver(channel, SeqAt(log, n), log[at]));
  }

  lemma PassedAt(channel: string, after: nat, log: seq<Msg>, at: nat, k: nat)
    requires at + k < |log|
    ensures Passed(channel, after, log[at..], k + 1) ==
            Passed(channel, after, log[at..], k) + Deliver(channel, after, log[at + k])
  {
    assert log[at..][k] == log[at + k];
  }

  lemma NothingMore(out: seq<Msg>)
    ensures out + [] == out
  {
  }

  lemma OneMorePassed(channel: string, log: seq<Msg>, out: seq<Msg>, n: nat, at: nat, k: nat)
    requires Increasing(log) && n <= |log| && at + k < |log|
    requires InOrder(channel, log, out + Passed(channel, SeqAt(log, n), log[at..], k), Max(n, at + k))
    ensures InOrder(channel, log, out + Passed(channel, SeqAt(log, n), log[at..], k + 1), Max(n, at + k + 1))
  {
    PassedMore(channel, log, out, n, at + k, Passed(channel, SeqAt(log, n), log[at..], k));
    PassedAt(channel, SeqAt(log, n), log, at, k);
  }

  lemma {:induction false} PassedKeeps(channel: string, log: seq<Msg>, out: seq<Msg>, n: nat, at: nat, k: nat)
    requires Increasing(log) && n <= |log| && at + k <= |log| && InOrder(channel, log, out, Max(n, at))
    ensures InOrder(channel, log, out + Passed(channel, SeqAt(log, n), log[at..], k), Max(n, at + k))
  {
    if k == 0 {
      NothingMore(out);
    } else {
      PassedKeeps(channel, log, out, n, at, k - 1);
      OneMorePassed(channel, log, out, n, at, k - 1);
    }
  }

  lemma StaysInOrder(channel: string, log: seq<Msg>, out: seq<Msg>, n: nat, sent: nat, first: seq<Msg>)
    requires Increasing(log) && n <= |log| && sent <= |log| && InOrder(channel, log, out, Max(n, sent))
    requires first == []
    ensures Increasing(out + (first + Delivered(channel, SeqAt(log, n), log[sent..])))
  {
    PassedKeeps(channel, log, out, n, sent, |log| - sent);
    NothingFirst(first, Delivered(channel, SeqAt(log, n), log[sent..]));
  }

  lemma NothingFirst(first: seq<Msg>, rest: seq<Msg>)
    requires first == []
    ensures first + rest == rest
  {
  }

  lemma RepeatsLoseOrder(out: seq<Msg>, first: seq<Msg>, rest: seq<Msg>)
    requires first != []
    ensures !Increasing(out + (first + (first + rest)))
  {
    var all := out + (first + (first + rest));
    assert all[|out|] == first[0] && all[|out| + |first|] == first[0];
  }

  lemma LosesOrder(channel: string, after: nat, out: seq<Msg>, head: seq<Msg>, tail: seq<Msg>)
    requires Delivered(channel, after, head) != []
    ensures !Increasing(out + (Delivered(channel, after, head) + Delivered(channel, after, head + tail)))
  {
    DeliveredConcat(channel, after, head, tail);
    RepeatsLoseOrder(out, Delivered(channel, after, head), Delivered(channel, after, tail));
  }

  lemma OrderAfterTear(channel: string, log: seq<Msg>, out: seq<Msg>, n: nat, sent: nat, head: seq<Msg>, tail: seq<Msg>)
    requires Increasing(log) && n <= |log| && sent <= |log| && InOrder(channel, log, out, Max(n, sent))
    requires log[sent..] == head + tail
    ensures var first := Delivered(channel, SeqAt(log, n), head);
            Increasing(out + (first + Delivered(channel, SeqAt(log, n), log[sent..]))) <==> first == []
  {
    if Delivered(channel, SeqAt(log, n), head) == [] {
      StaysInOrder(channel, log, out, n, sent, Delivered(channel, SeqAt(log, n), head));
    } else {
      LosesOrder(channel, SeqAt(log, n), out, head, tail);
    }
  }

  /**
   When a poll fails after some rows and the next one starts over, a streaming client gets what it gets
   from the first stretch twice: its order survives exactly when its stream let nothing of it through.
   */
  lemma TornPollReaches(channel: string, s: State, sent: nat, n: nat, failAt: nat, more: seq<Msg>)
    requires Stands(channel, s, sent, n) && s.client.Live? && s.client.queue == [] && s.poll.None?
    requires Increasing(s.log + more) && sent + failAt < |s.log|
    ensures var c := Run(channel, s, Torn(failAt, more, |s.log + more| - sent)).client;
            var first := Delivered(channel, s.client.afterSeq, s.log[sent..][..failAt]);
            && c.Live?
            && c.out == s.client.out + (first + Delivered(channel, s.client.afterSeq, (s.log + more)[sent..]))
            && (Increasing(c.out) <==> first == [])
  {
    var log, head := s.log + more, s.log[sent..][..failAt];
    TornDelivers(channel, s, sent, failAt, more, log);
    SameStart(channel, s.log, log, s.client.out, n, sent);
    HeadOf(s.log, log, sent, failAt);
    OrderAfterTear(channel, log, s.client.out, n, sent, head, log[sent + failAt..]);
  }

  lemma HeadOf(log: seq<Msg>, longer: seq<Msg>, sent: nat, k: nat)
    requires log <= longer && sent + k <= |log|
    ensures longer[sent..] == log[sent..][..k] + longer[sent + k..]
  {
  }

  lemma SameStart(channel: string, log: seq<Msg>, longer: seq<Msg>, out: seq<Msg>, n: nat, sent: nat)
    requires log <= longer && n <= |log| && sent <= |log| && InOrder(channel, log, out, Max(n, sent))
    ensures SeqAt(longer, n) == SeqAt(log, n) && InOrder(channel, longer, out, Max(n, sent))
  {
    assert longer[..Max(n, sent)] == log[..Max(n, sent)];
  }

  // --- a row that stays unreadable ---

  /** A poll that fails after `failAt` rows, the client taking them, and the rows that are appended then. */
  function Round(failAt: nat, more: seq<Msg>): seq<Step> {
    FailedPoll(failAt) + (Receives(failAt) + Appends(more))
  }

  /** One such round for each batch of appended rows. */
  function Rounds(failAt: nat, batches: seq<seq<Msg>>): seq<Step> {
    if batches == [] then []
    else Rounds(failAt, batches[..|batches| - 1]) + Round(failAt, batches[|batches| - 1])
  }

  function Grown(log: seq<Msg>, batches: seq<seq<Msg>>): seq<Msg> {
    if batches == [] then log else Grown(log, batches[..|batches| - 1]) + batches[|batches| - 1]
  }

  /** The same stretch `k` times. */
  function Times(ms: seq<Msg>, k: nat): seq<Msg> {
    if k == 0 then [] else ms + Times(ms, k - 1)
  }

  lemma {:induction false} TimesLast(ms: seq<Msg>, k: nat)
    ensures Times(ms, k + 1) == Times(ms, k) + ms
  {
    if k == 0 {
      assert ms + [] == [] + ms;
    } else {
      TimesLast(ms, k - 1);
      Concat3(ms, Times(ms, k - 1), ms);
    }
  }

  lemma RunRound(channel: string, s: State, sent: nat, failAt: nat, more: seq<Msg>)
    requires s.client.Live? && s.client.queue == [] && s.poll.None?
    requires Increasing(s.log) && Increasing(s.log + more) && sent + failAt <= |s.log| && s.hw == SeqAt(s.log, sent)
    ensures var c := s.client;
            Run(channel, s, Round(failAt, more)) ==
            s.(log := s.log + more,
               client := Live([], c.afterSeq, c.out + Delivered(channel, c.afterSeq, s.log[sent..][..failAt])))
  {
    var first := s.log[sent..][..failAt];
    var waiting := s.(client := Waiting(s.client, first));
    RunFailed(channel, s, sent, failAt, Receives(failAt) + Appends(more));
    RunConcat(channel, waiting, Receives(failAt), Appends(more));
    RunReceives(channel, waiting, failAt);
    ReceivesAll(channel, waiting);
    RunAppends(channel, Receiving(channel, waiting, failAt), more);
  }

  /** Where the rounds leave an idle streaming client: the first stretch over and over, and nothing else. */
  function Stuck(channel: string, s: State, first: seq<Msg>, batches: seq<seq<Msg>>): State
    requires s.client.Live?
  {
    var c := s.client;
    s.(log := Grown(s.log, batches),
       client := Live([], c.afterSeq, c.out + Times(Delivered(channel, c.afterSeq, first), |batches|)))
  }

  lemma {:induction false} GrownExtends(log: seq<Msg>, batches: seq<seq<Msg>>)
    ensures log <= Grown(log, batches)
  {
    if batches != [] {
      GrownExtends(log, batches[..|batches| - 1]);
    }
  }

  lemma OneMoreRound(channel: string, s: State, sent: nat, failAt: nat, batches: seq<seq<Msg>>, more: seq<Msg>)
    requires s.client.Live? && s.poll.None? && sent + failAt <= |s.log| && s.hw == SeqAt(s.log, sent)
    requires Increasing(Grown(s.log, batches) + more)
    ensures var stuck, first := Stuck(channel, s, s.log[sent..][..failAt], batches), s.log[sent..][..failAt];
            Run(channel, stuck, Round(failAt, more)) ==
            Stuck(channel, s, first, batches).(
              log := Grown(s.log, batches) + more,
              client := Live([], s.client.afterSeq,
                             s.client.out + Times(Delivered(channel, s.client.afterSeq, first), |batches| + 1)))
  {
    var first, log := s.log[sent..][..failAt], Grown(s.log, batches);
    GrownExtends(s.log, batches);
    HeadStays(s.log, log, sent, failAt);
    IncreasingPrefix(log + more, |log|);
    assert (log + more)[..|log|] == log;
    RunRound(channel, Stuck(channel, s, first, batches), sent, failAt, more);
    var d := Delivered(channel, s.client.afterSeq, first);
    TimesLast(d, |batches|);
    Concat3(s.client.out, Times(d, |batches|), d);
  }

  lemma HeadStays(log: seq<Msg>, longer: seq<Msg>, sent: nat, k: nat)
    requires log <= longer && sent + k <= |log|
    ensures longer[sent..][..k] == log[sent..][..k] && SeqAt(longer, sent) == SeqAt(log, sent)
  {
  }

  lemma {:induction false} RunRounds(channel: string, s: State, sent: nat, failAt: nat, batches: seq<seq<Msg>>)
    requires s.client.Live? && s.client.queue == [] && s.poll.None?
    requires sent + failAt <= |s.log| && s.hw == SeqAt(s.log, sent) && Increasing(Grown(s.log, batches))
    ensures Run(channel, s, Rounds(failAt, batches)) == Stuck(channel, s, s.log[sent..][..failAt], batches)
  {
    if batches == [] {
      NothingMore(s.client.out);
    } else {
      var front, more := batches[..|batches| - 1], batches[|batches| - 1];
      var log := Grown(s.log, front);
      IncreasingPrefix(log + more, |log|);
      assert (log + more)[..|log|] == log;
      RunRounds(channel, s, sent, failAt, front);
      RunConcat(channel, s, Rounds(failAt, front), Round(failAt, more));
      OneMoreRound(channel, s, sent, failAt, front, more);
    }
  }

  lemma StretchKeeps(channel: string, log: seq<Msg>, out: seq<Msg>, n: nat, sent: nat, k: nat)
    requires Increasing(log) && n <= |log| && sent + k <= |log| && InOrder(channel, log, out, Max(n, sent))
    ensures Increasing(out + Delivered(channel, SeqAt(log, n), log[sent..][..k]))
  {
    var head, tail := log[sent..][..k], log[sent..][k..];
    assert head + tail == log[sent..];
    PassedFront(channel, SeqAt(log, n), head, tail, k);
    PassedKeeps(channel, log, out, n, sent, k);
  }

  lemma TimesOrder(out: seq<Msg>, first: seq<Msg>, k: nat)
    requires Increasing(out) && Increasing(out + first)
    ensures Increasing(out + Times(first, k)) <==> k <= 1 || first == []
  {
    if first == [] {
      NoneTimes(first, k);
      NothingMore(out);
    } else if k == 0 {
      NothingMore(out);
    } else if k == 1 {
      NothingMore(first);
    } else {
      RepeatsLoseOrder(out, first, Times(first, k - 2));
    }
  }

  lemma {:induction false} NoneTimes(ms: seq<Msg>, k: nat)
    requires ms == []
    ensures Times(ms, k) == []
  {
    if k > 0 {
      NoneTimes(ms, k - 1);
    }
  }

  /**
   While a row stays unreadable every poll sends the rows in front of it again and none after it,
   whatever is appended: the client gets the same stretch once for each poll, and stays in order exactly
   while that is once at most or its stream lets nothing of the stretch through.
   */
  lemma StuckPollsRepeat(channel: string, s: State, sent: nat, n: nat, failAt: nat, batches: seq<seq<Msg>>)
    requires Stands(channel, s, sent, n) && s.client.Live? && s.client.queue == [] && s.poll.None?
    requires sent + failAt < |s.log| && Increasing(Grown(s.log, batches))
    ensures var end := Run(channel, s, Rounds(failAt, batches));
            var first := Delivered(channel, s.client.afterSeq, s.log[sent..][..failAt]);
            && end.hw == s.hw && end.log == Grown(s.log, batches)
            && end.client == Live([], s.client.afterSeq, s.client.out + Times(first, |batches|))
            && (Increasing(end.client.out) <==> |batches| <= 1 || first == [])
  {
    RunRounds(channel, s, sent, failAt, batches);
    StretchKeeps(channel, s.log, s.client.out, n, sent, failAt);
    TimesOrder(s.client.out, Delivered(channel, s.client.afterSeq, s.log[sent..][..failAt]), |batches|);
  }

  lemma Joining(a: Msg, b: Msg)
    requires 0 < a.seqNo < b.seqNo
    ensures Run("all", Start([]), [Subscribe, ReadBacklog] + Appends([a, b])) == State([a, b], 0, None, Live([], 0, []))
  {
    RunOne("all", Start([]), [], Subscribe);
    RunOne("all", Start([]), [Subscribe], ReadBacklog);
    assert [] + [Subscribe] == [Subscribe] && [Subscribe] + [ReadBacklog] == [Subscribe, ReadBacklog];
    RunConcat("all", Start([]), [Subscribe, ReadBacklog], Appends([a, b]));
    RunAppends("all", State([], 0, None, Live([], 0, [])), [a, b]);
  }

  lemma TwoDelivered(a: Msg, b: Msg)
    requires 0 < a.seqNo && 0 < b.seqNo
    ensures Delivered("all", 0, [a]) == [a] && Delivered("all", 0, [a, b]) == [a, b]
  {
    assert Deliver("all", 0, a) == [a] && Deliver("all", 0, b) == [b];
    assert Passed("all", 0, [a], 0) == [] && Passed("all", 0, [a, b], 0) == [];
    assert Passed("all", 0, [a], 1) == [a];
    assert Passed("all", 0, [a, b], 1) == [a];
    assert Passed("all", 0, [a, b], 2) == [a] + [b];
  }

  lemma TwoSlices(a: Msg, b: Msg, log: seq<Msg>)
    requires log == [a, b]
    ensures log == log + [] && log[0..] == log && log[0..][..1] == [a]
  {
  }

  lemma TearOfTwo(a: Msg, b: Msg, log: seq<Msg>)
    requires 0 < a.seqNo < b.seqNo && log == [a, b]
    ensures Run("all", State(log, 0, None, Live([], 0, [])), Torn(1, [], 2)).client ==
            Live([], 0, [] + (Delivered("all", 0, [a]) + Delivered("all", 0, log)))
  {
    TwoSlices(a, b, log);
    TornDelivers("all", State(log, 0, None, Live([], 0, [])), 0, 1, [], log);
  }

  /** Two rows and a poll that fails between them: the client that was streaming gets the first row twice. */
  lemma TornPollExample(a: Msg, b: Msg)
    requires 0 < a.seqNo < b.seqNo
    ensures Run("all", Start([]), [Subscribe, ReadBacklog] + Appends([a, b]) + Torn(1, [], 2)).client ==
            Live([], 0, [a, a, b])
  {
    Joining(a, b);
    RunConcat("all", Start([]), [Subscribe, ReadBacklog] + Appends([a, b]), Torn(1, [], 2));
    TearOfTwo(a, b, [a, b]);
    TwoDelivered(a, b);
    assert [] + ([a] + [a, b]) == [a, a, b];
  }

  // --- why lag and a lost backlog leave gaps ---

  lemma BothRows(a: Msg, b: Msg)
    requires 0 < a.seqNo < b.seqNo
    ensures RowsAfter([a, b], 0) == [a, b]
  {
    RowsAfterIsSuffix([a, b], 0);
    assert [a, b][0..] == [a, b];
  }

  lemma RunStep(s: State, steps: seq<Step>, step: Step, more: seq<Step>, mid: State, next: State)
    requires Run("all", s, steps) == mid && Next("all", mid, step) == next && more == steps + [step]
    ensures Run("all", s, more) == next
  {
    RunOne("all", s, steps, step);
  }

  lemma BothQueued(a: Msg, b: Msg, log: seq<Msg>, s: State)
    requires 0 < a.seqNo < b.seqNo && log == [a, b] && s == State(log, 0, None, Live([], 0, []))
    ensures Run("all", s, [BeginPoll, SendRow, SendRow]) == State(log, 0, Some(Poll([], b.seqNo)), Live([a, b], 0, []))
  {
    var s1 := State(log, 0, Some(Poll([a, b], 0)), Live([], 0, []));
    var s2 := State(log, 0, Some(Poll([b], a.seqNo)), Live([a], 0, []));
    BothRows(a, b);
    assert [a, b][1..] == [b] && [b][1..] == [] && [] + [a] == [a] && [a] + [b] == [a, b];
    RunStep(s, [], BeginPoll, [BeginPoll], s, s1);
    RunStep(s, [BeginPoll], SendRow, [BeginPoll, SendRow], s1, s2);
    RunStep(s, [BeginPoll, SendRow], SendRow, [BeginPoll, SendRow, SendRow], s2,
            State(log, 0, Some(Poll([], b.seqNo)), Live([a, b], 0, [])));
  }

  /** Once two messages are queued, an overrun takes the first. */
  lemma LagThenReceive(s: State, pre: seq<Step>, a: Msg, b: Msg)
    requires Run("all", s, pre).client == Live([a, b], 0, []) && b.seqNo > 0
    ensures Run("all", s, pre + [Lag(1)] + [Receive]).client == Live([], 0, [b])
  {
    assert [a, b][1..] == [b] && [b][1..] == [] && [] + [b] == [b];
    RunOne("all", s, pre, Lag(1));
    RunOne("all", s, pre + [Lag(1)], Receive);
  }

  /** Two rows are polled while the client streams, and its queue overruns: of both it gets only the second. */
  lemma LagExample(a: Msg, b: Msg)
    requires 0 < a.seqNo < b.seqNo
    ensures Run("all", Start([]), [Subscribe, ReadBacklog] + Appends([a, b]) +
                                  [BeginPoll, SendRow, SendRow, Lag(1), Receive]).client == Live([], 0, [b])
  {
    Joining(a, b);
    RunConcat("all", Start([]), [Subscribe, ReadBacklog] + Appends([a, b]), [BeginPoll, SendRow, SendRow, Lag(1), Receive]);
    BothQueued(a, b, [a, b], State([a, b], 0, None, Live([], 0, [])));
    LagThenReceive(State([a, b], 0, None, Live([], 0, [])), [BeginPoll, SendRow, SendRow], a, b);
    assert [BeginPoll, SendRow, SendRow, Lag(1), Receive] == [BeginPoll, SendRow, SendRow] + [Lag(1)] + [Receive];
  }

  lemma JoinedBetween(a: Msg, b: Msg, log: seq<Msg>)
    requires 0 < a.seqNo < b.seqNo && log == [a, b]
    ensures Run("all", Start(log), [BeginPoll, SendRow, Subscribe]) ==
            State(log, 0, Some(Poll([b], a.seqNo)), Joined([]))
  {
    var s := Start(log);
    var s1 := State(log, 0, Some(Poll([a, b], 0)), Away);
    var s2 := State(log, 0, Some(Poll([b], a.seqNo)), Away);
    BothRows(a, b);
    assert [a, b][1..] == [b];
    RunStep(s, [], BeginPoll, [BeginPoll], s, s1);
    RunStep(s, [BeginPoll], SendRow, [BeginPoll, SendRow], s1, s2);
    RunStep(s, [BeginPoll, SendRow], Subscribe, [BeginPoll, SendRow, Subscribe], s2,
            State(log, 0, Some(Poll([b], a.seqNo)), Joined([])));
  }

  lemma LateRow(s: State, pre: seq<Step>, b: Msg, last: nat)
    requires Run("all", s, pre).client == Joined([]) && Run("all", s, pre).poll == Some(Poll([b], last)) && b.seqNo > 0
    ensures Run("all", s, pre + [FailBacklog] + [SendRow] + [Receive]).client == Live([], 0, [b])
  {
    assert [b][1..] == [] && [] + [b] == [b];
    RunOne("all", s, pre, FailBacklog);
    var s1 := Run("all", s, pre + [FailBacklog]);
    assert s1.client == Live([], 0, []) && s1.poll == Some(Poll([b], last));
    RunOne("all", s, pre + [FailBacklog], SendRow);
    assert Run("all", s, pre + [FailBacklog] + [SendRow]).client == Live([b], 0, []);
    RunOne("all", s, pre + [FailBacklog] + [SendRow], Receive);
  }

  /** A client joins between two rows of a poll and loses the backlog: it gets only what is polled after it joined. */
  lemma LostBacklogExample(a: Msg, b: Msg)
    requires 0 < a.seqNo < b.seqNo
    ensures Run("all", Start([a, b]), [BeginPoll, SendRow, Subscribe, FailBacklog, SendRow, Receive]).client ==
            Live([], 0, [b])
  {
    var pre: seq<Step> := [BeginPoll, SendRow, Subscribe];
    JoinedBetween(a, b, [a, b]);
    LateRow(Start([a, b]), pre, b, a.seqNo);
    assert [BeginPoll, SendRow, Subscribe, FailBacklog, SendRow, Receive] == pre + [FailBacklog] + [SendRow] + [Receive];
  }
}
