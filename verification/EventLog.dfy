/** The hash-chained event log and its integrity check (events/bus.py). */
module EventLog {
  import opened Results

  const US: char := 0x1f as char
  const RS: char := 0x1e as char

  /** A row of the `events` table. */
  datatype Event<+P> = Event(
    seqNo: nat, eventId: string, correlationId: string, eventType: string, payload: P,
    prevHash: string, hash: string)

  /** The digest function and the canonical payload text, both left arbitrary. */
  datatype Codec<!P> = Codec(sha: string -> string, encode: P -> string)

  datatype IntegrityError = PrevHashBroken(seqNo: nat) | HashBroken(seqNo: nat)

  // --- the canonical content ---

  /** The four fields that are hashed. */
  datatype Fields = Fields(eventId: string, correlationId: string, eventType: string, payload: string)

  function Content(f: Fields): string {
    f.eventId + [US] + (f.correlationId + [US] + (f.eventType + [US] + f.payload))
  }

  function FieldsOf<P>(c: Codec<P>, e: Event<P>): Fields {
    Fields(e.eventId, e.correlationId, e.eventType, c.encode(e.payload))
  }

  /** What is hashed for an event that follows the given hash. */
  function Preimage(prev: string, f: Fields): string {
    prev + [RS] + Content(f)
  }

  function Digest<P>(c: Codec<P>, prev: string, e: Event<P>): string {
    c.sha(Preimage(prev, FieldsOf(c, e)))
  }

  // --- the chain ---

  function LastHash<P>(log: seq<Event<P>>): string {
    if log == [] then "" else log[|log| - 1].hash
  }

  predicate Links<P>(c: Codec<P>, prev: string, e: Event<P>) {
    e.prevHash == prev && e.hash == Digest(c, prev, e)
  }

  /** Every row links to the one before it. */
  ghost predicate Chained<P>(c: Codec<P>, log: seq<Event<P>>) {
    forall i :: 0 <= i < |log| ==> Links(c, LastHash(log[..i]), log[i])
  }

  function Broken<P>(c: Codec<P>, prev: string, e: Event<P>): Option<IntegrityError> {
    if e.prevHash != prev then Some(PrevHashBroken(e.seqNo))
    else if e.hash != Digest(c, prev, e) then Some(HashBroken(e.seqNo))
    else None
  }

  /** The number of rows, or the first break. */
  function Verify<P>(c: Codec<P>, log: seq<Event<P>>): Result<nat, IntegrityError> {
    if log == [] then Ok(0)
    else
      var front := log[..|log| - 1];
      var n :- Verify(c, front);
      match Broken(c, LastHash(front), log[|log| - 1])
      case Some(e) => Err(e)
      case None => Ok(n + 1)
  }

  /** A break is reported for good: whatever is appended later, the same row is named. */
  lemma {:induction false} VerifyBreakStays<P>(c: Codec<P>, log: seq<Event<P>>, more: seq<Event<P>>)
    requires Verify(c, log).Err?
    ensures Verify(c, log + more) == Verify(c, log)
  {
    if more == [] {
      assert log + more == log;
    } else {
      assert (log + more)[..|log + more| - 1] == log + more[..|more| - 1];
      VerifyBreakStays(c, log, more[..|more| - 1]);
    }
  }

  lemma ChainedGrows<P>(c: Codec<P>, log: seq<Event<P>>, e: Event<P>)
    requires Chained(c, log) && Links(c, LastHash(log), e)
    ensures Chained(c, log + [e])
  {
    forall i | 0 <= i < |log| + 1 ensures Links(c, LastHash((log + [e])[..i]), (log + [e])[i]) {
      assert (log + [e])[..i] == log[..i];
      assert log[..|log|] == log;
    }
  }

  lemma ChainedFront<P>(c: Codec<P>, log: seq<Event<P>>)
    requires Chained(c, log) && log != []
    ensures Chained(c, log[..|log| - 1])
    ensures Links(c, LastHash(log[..|log| - 1]), log[|log| - 1])
  {
    var front := log[..|log| - 1];
    assert forall i :: 0 <= i < |front| ==> front[..i] == log[..i];
  }

  lemma ChainedIs<P>(c: Codec<P>, front: seq<Event<P>>, last: Event<P>)
    ensures Chained(c, front + [last]) <==> Chained(c, front) && Links(c, LastHash(front), last)
  {
    if Chained(c, front + [last]) {
      ChainedFront(c, front + [last]);
      assert (front + [last])[..|front|] == front;
    } else if Chained(c, front) && Links(c, LastHash(front), last) {
      ChainedGrows(c, front, last);
    }
  }

  lemma VerifyIs<P>(c: Codec<P>, front: seq<Event<P>>, last: Event<P>)
    ensures Verify(c, front + [last]) ==
            match Verify(c, front)
            case Err(e) => Err(e)
            case Ok(n) => match Broken(c, LastHash(front), last) case Some(e) => Err(e) case None => Ok(n + 1)
  {
    assert (front + [last])[..|front|] == front;
  }

  /** The check accepts exactly the chained logs, and counts all of their rows. */
  lemma {:induction false} VerifyAccepts<P>(c: Codec<P>, log: seq<Event<P>>)
    ensures Verify(c, log).Ok? <==> Chained(c, log)
    ensures Verify(c, log).Ok? ==> Verify(c, log) == Ok(|log|)
  {
    if log != [] {
      var front, last := log[..|log| - 1], log[|log| - 1];
      assert log == front + [last];
      VerifyAccepts(c, front);
      VerifyIs(c, front, last);
      ChainedIs(c, front, last);
    }
  }

  /** A row that breaks the chain is what the check reports. */
  lemma BreakIsReported<P>(c: Codec<P>, front: seq<Event<P>>, e: Event<P>, more: seq<Event<P>>)
    requires Verify(c, front).Ok? && Broken(c, LastHash(front), e).Some?
    ensures Verify(c, front + [e] + more) == Err(Broken(c, LastHash(front), e).value)
  {
    VerifyIs(c, front, e);
    VerifyBreakStays(c, front + [e], more);
  }

  /**
   A rejection is about the first row that does not link: it is named by its number, for its previous hash when
   that is not the hash of the row before, and else for its own hash.
   */
  lemma {:induction false} BreakIsFirst<P>(c: Codec<P>, log: seq<Event<P>>) returns (i: nat)
    requires Verify(c, log).Err?
    ensures i < |log| && Chained(c, log[..i]) && !Links(c, LastHash(log[..i]), log[i])
    ensures Verify(c, log).error ==
            if log[i].prevHash != LastHash(log[..i]) then PrevHashBroken(log[i].seqNo) else HashBroken(log[i].seqNo)
  {
    var front := log[..|log| - 1];
    if Verify(c, front).Err? {
      i := BreakIsFirst(c, front);
      assert front[..i] == log[..i];
    } else {
      i := |front|;
      VerifyAccepts(c, front);
    }
  }

  /** `verify_chain` recomputes the chain row by row and stops at the first break. */
  method VerifyChain<P>(c: Codec<P>, log: seq<Event<P>>) returns (r: Result<nat, IntegrityError>)
    ensures r == Verify(c, log)
  {
    var prevHash, count: nat := "", 0;
    for i := 0 to |log|
      invariant Verify(c, log[..i]) == Ok(i) && count == i && prevHash == LastHash(log[..i])
    {
      var e := log[i];
      assert log == log[..i] + [e] + log[i + 1..];
      if e.prevHash != prevHash {
        BreakIsReported(c, log[..i], e, log[i + 1..]);
        return Err(PrevHashBroken(e.seqNo));
      }
      if e.hash != Digest(c, prevHash, e) {
        BreakIsReported(c, log[..i], e, log[i + 1..]);
        return Err(HashBroken(e.seqNo));
      }
      VerifyIs(c, log[..i], e);
      assert log[..i + 1] == log[..i] + [e];
      prevHash := e.hash;
      count := count + 1;
    }
    assert log[..|log|] == log;
    r := Ok(count);
  }

  /** Two writers that read the same tail break the chain, unless their digests happen to collide with it. */
  lemma StaleTailBreaks<P>(c: Codec<P>, log: seq<Event<P>>, a: Event<P>, b: Event<P>)
    requires Links(c, LastHash(log), a) && Links(c, LastHash(log), b) && a.hash != LastHash(log)
    ensures Verify(c, log + [a] + [b]).Err?
  {
    VerifyAccepts(c, log + [a] + [b]);
    assert (log + [a] + [b])[..|log| + 1] == log + [a];
  }

  // --- the hashed content ---

  predicate Clean(f: Fields) {
    US !in f.eventId && US !in f.correlationId && US !in f.eventType
  }

  lemma {:induction false} FirstSeparator(a: string, b: string, x: string, y: string, s: char)
    requires a + [s] + b == x + [s] + y && s !in a && s !in x
    ensures a == x && b == y
  {
    var t := a + [s] + b;
    assert t[|a|] == s && t[|x|] == s;
    forall i | 0 <= i < |a| ensures t[i] != s {
      assert t[i] == a[i];
    }
    forall i | 0 <= i < |x| ensures t[i] != s {
      assert t[i] == x[i];
    }
    assert |a| == |x|;
    assert a == t[..|a|] && x == t[..|x|];
    assert b == t[|a| + 1..] && y == t[|x| + 1..];
  }

  /** Content without separators inside its identifying fields decodes in one way. */
  lemma ContentDecodes(f: Fields, g: Fields)
    requires Clean(f) && Clean(g) && Content(f) == Content(g)
    ensures f == g
  {
    FirstSeparator(f.eventId, f.correlationId + [US] + (f.eventType + [US] + f.payload),
                   g.eventId, g.correlationId + [US] + (g.eventType + [US] + g.payload), US);
    FirstSeparator(f.correlationId, f.eventType + [US] + f.payload, g.correlationId, g.eventType + [US] + g.payload, US);
    FirstSeparator(f.eventType, f.payload, g.eventType, g.payload, US);
  }

  // --- when the content decodes uniquely ---

  function CountUS(s: string): nat {
    if s == "" then 0 else (if s[0] == US then 1 else 0) + CountUS(s[1..])
  }

  lemma {:induction false} CountConcat(a: string, b: string)
    ensures CountUS(a + b) == CountUS(a) + CountUS(b)
  {
    if a == "" {
      assert a + b == b;
    } else {
      assert (a + b)[1..] == a[1..] + b;
      CountConcat(a[1..], b);
    }
  }

  lemma {:induction false} CountZero(s: string)
    ensures CountUS(s) == 0 <==> US !in s
  {
    if s != "" {
      CountZero(s[1..]);
      assert s == [s[0]] + s[1..];
    }
  }

  lemma CountContent(f: Fields)
    ensures CountUS(Content(f)) == 3 + CountUS(f.eventId) + CountUS(f.correlationId) + CountUS(f.eventType) + CountUS(f.payload)
  {
    assert CountUS([US]) == 1;
    CountConcat(f.eventType, [US]);
    CountConcat(f.eventType + [US], f.payload);
    CountConcat(f.correlationId, [US]);
    CountConcat(f.correlationId + [US], f.eventType + [US] + f.payload);
    CountConcat(f.eventId, [US]);
    CountConcat(f.eventId + [US], f.correlationId + [US] + (f.eventType + [US] + f.payload));
  }

  predicate SeparatorFree(f: Fields) {
    Clean(f) && US !in f.payload
  }

  lemma CleanByCount(f: Fields)
    ensures SeparatorFree(f) <==> CountUS(Content(f)) == 3
  {
    CountContent(f);
    CountZero(f.eventId);
    CountZero(f.correlationId);
    CountZero(f.eventType);
    CountZero(f.payload);
  }

  lemma SplitAt(s: string) returns (u: string, v: string)
    requires US in s
    ensures s == u + [US] + v
  {
    var k :| 0 <= k < |s| && s[k] == US;
    u, v := s[..k], s[k + 1..];
  }

  /** A separator inside a field can be moved between fields, in front of the payload without touching that. */
  lemma AmbiguousContent(f: Fields) returns (g: Fields)
    requires !SeparatorFree(f)
    ensures g != f && Content(g) == Content(f)
    ensures US in f.eventId || US in f.correlationId || US in f.eventType ==> g.payload == f.payload
  {
    if US in f.eventId {
      var u, v := SplitAt(f.eventId);
      g := Fields(u, v + [US] + f.correlationId, f.eventType, f.payload);
      assert |u| < |f.eventId|;
    } else if US in f.correlationId {
      var u, v := SplitAt(f.correlationId);
      g := Fields(f.eventId + [US] + u, v, f.eventType, f.payload);
      assert |g.eventId| > |f.eventId|;
    } else if US in f.eventType {
      var u, v := SplitAt(f.eventType);
      g := Fields(f.eventId, f.correlationId + [US] + u, v, f.payload);
      assert |g.correlationId| > |f.correlationId|;
    } else {
      var u, v := SplitAt(f.payload);
      g := Fields(f.eventId + [US] + f.correlationId, f.eventType, u, v);
      assert |g.eventId| > |f.eventId|;
    }
  }

  /** The hashed content identifies its event exactly when no field contains the separator. */
  lemma ContentIdentifies(f: Fields)
    ensures SeparatorFree(f) <==> forall g :: Content(g) == Content(f) ==> g == f
  {
    if SeparatorFree(f) {
      forall g | Content(g) == Content(f) ensures g == f {
        CleanByCount(f);
        CleanByCount(g);
        ContentDecodes(f, g);
      }
    } else {
      var g := AmbiguousContent(f);
    }
  }

  // --- the head determines the log ---

  /** Digests are nonempty and have no record separator in them, as hexadecimal text has not. */
  ghost predicate HexDigests(sha: string -> string) {
    forall x :: sha(x) != "" && RS !in sha(x)
  }

  ghost predicate CleanLog<P>(c: Codec<P>, log: seq<Event<P>>) {
    forall i :: 0 <= i < |log| ==> Clean(FieldsOf(c, log[i]))
  }

  ghost predicate SeparatorFreeLog<P>(c: Codec<P>, log: seq<Event<P>>) {
    forall i :: 0 <= i < |log| ==> SeparatorFree(FieldsOf(c, log[i]))
  }

  /** The first log leaves no choice to the second: it is free of separators, or both identify their events. */
  ghost predicate Decodable<P>(c: Codec<P>, a: seq<Event<P>>, b: seq<Event<P>>) {
    SeparatorFreeLog(c, a) || (CleanLog(c, a) && CleanLog(c, b))
  }

  /** The text that is hashed for row `i`. */
  function RowText<P>(c: Codec<P>, log: seq<Event<P>>, i: nat): string
    requires i < |log|
  {
    Preimage(LastHash(log[..i]), FieldsOf(c, log[i]))
  }

  ghost predicate SameRow<P>(c: Codec<P>, a: Event<P>, b: Event<P>) {
    FieldsOf(c, a) == FieldsOf(c, b) && a.prevHash == b.prevHash && a.hash == b.hash
  }

  /** The same chain: every hashed field and every hash agrees, row by row. */
  ghost predicate SameLog<P>(c: Codec<P>, a: seq<Event<P>>, b: seq<Event<P>>) {
    |a| == |b| && forall i :: 0 <= i < |a| ==> SameRow(c, a[i], b[i])
  }

  /** Row `i` of one log and row `j` of the other have different texts with one digest. */
  ghost predicate RowsCollide<P>(c: Codec<P>, a: seq<Event<P>>, b: seq<Event<P>>, i: nat, j: nat) {
    i < |a| && j < |b| && RowText(c, a, i) != RowText(c, b, j) && c.sha(RowText(c, a, i)) == c.sha(RowText(c, b, j))
  }

  /** Equal preimages come from equal fields after equal hashes. */
  lemma PreimageDecodes(prev: string, f: Fields, prev': string, g: Fields)
    requires RS !in prev && RS !in prev' && (SeparatorFree(f) || (Clean(f) && Clean(g)))
    requires Preimage(prev, f) == Preimage(prev', g)
    ensures prev == prev' && f == g
  {
    FirstSeparator(prev, Content(f), prev', Content(g), RS);
    if SeparatorFree(f) {
      ContentIdentifies(f);
    } else {
      ContentDecodes(f, g);
    }
  }

  lemma SameLogGrows<P>(c: Codec<P>, a: seq<Event<P>>, b: seq<Event<P>>)
    requires a != [] && b != []
    requires SameLog(c, a[..|a| - 1], b[..|b| - 1]) && SameRow(c, a[|a| - 1], b[|b| - 1])
    ensures SameLog(c, a, b)
  {
    forall i | 0 <= i < |a| ensures SameRow(c, a[i], b[i]) {
      if i < |a| - 1 {
        assert a[i] == a[..|a| - 1][i] && b[i] == b[..|b| - 1][i];
      }
    }
  }

  ghost predicate Sound<P>(c: Codec<P>, log: seq<Event<P>>) {
    HexDigests(c.sha) && Chained(c, log)
  }

  lemma SoundFront<P>(c: Codec<P>, log: seq<Event<P>>)
    requires Sound(c, log) && log != []
    ensures Sound(c, log[..|log| - 1]) && RS !in LastHash(log[..|log| - 1])
    ensures Links(c, LastHash(log[..|log| - 1]), log[|log| - 1])
    ensures log[|log| - 1].hash == c.sha(RowText(c, log, |log| - 1))
  {
    ChainedFront(c, log);
    if |log| > 1 {
      ChainedFront(c, log[..|log| - 1]);
    }
  }

  lemma DecodableFronts<P>(c: Codec<P>, a: seq<Event<P>>, b: seq<Event<P>>)
    requires Decodable(c, a, b) && a != [] && b != []
    ensures Decodable(c, a[..|a| - 1], b[..|b| - 1])
    ensures var f, g := FieldsOf(c, a[|a| - 1]), FieldsOf(c, b[|b| - 1]); SeparatorFree(f) || (Clean(f) && Clean(g))
  {
  }

  /** The last rows of two sound logs with one head agree, and so do the heads before them, or they collide. */
  lemma LastRowsAgree<P>(c: Codec<P>, a: seq<Event<P>>, b: seq<Event<P>>)
    requires a != [] && b != [] && Sound(c, a) && Sound(c, b) && Decodable(c, a, b) && LastHash(a) == LastHash(b)
    requires !RowsCollide(c, a, b, |a| - 1, |b| - 1)
    ensures LastHash(a[..|a| - 1]) == LastHash(b[..|b| - 1]) && SameRow(c, a[|a| - 1], b[|b| - 1])
  {
    SoundFront(c, a);
    SoundFront(c, b);
    DecodableFronts(c, a, b);
    PreimageDecodes(LastHash(a[..|a| - 1]), FieldsOf(c, a[|a| - 1]), LastHash(b[..|b| - 1]), FieldsOf(c, b[|b| - 1]));
  }

  lemma FrontsCollide<P>(c: Codec<P>, a: seq<Event<P>>, b: seq<Event<P>>, i: nat, j: nat)
    requires a != [] && b != [] && RowsCollide(c, a[..|a| - 1], b[..|b| - 1], i, j)
    ensures RowsCollide(c, a, b, i, j)
  {
    assert a[..|a| - 1][..i] == a[..i] && b[..|b| - 1][..j] == b[..j];
  }

  lemma {:induction false} HeadDetermines<P>(c: Codec<P>, a: seq<Event<P>>, b: seq<Event<P>>) returns (i: nat, j: nat)
    requires Sound(c, a) && Sound(c, b) && Decodable(c, a, b) && LastHash(a) == LastHash(b)
    ensures SameLog(c, a, b) || RowsCollide(c, a, b, i, j)
  {
    i, j := 0, 0;
    if a != [] && b != [] {
      i, j := |a| - 1, |b| - 1;
      if !RowsCollide(c, a, b, i, j) {
        LastRowsAgree(c, a, b);
        SoundFront(c, a);
        SoundFront(c, b);
        DecodableFronts(c, a, b);
        i, j := HeadDetermines(c, a[..|a| - 1], b[..|b| - 1]);
        if RowsCollide(c, a[..|a| - 1], b[..|b| - 1], i, j) {
          FrontsCollide(c, a, b, i, j);
        } else {
          SameLogGrows(c, a, b);
        }
      }
    } else if a != [] {
      SoundFront(c, a);
    } else if b != [] {
      SoundFront(c, b);
    }
  }

  /**
   Any accepted log with the head hash of an accepted log that holds no separator is that log, or a row
   of one and a row of the other have different texts with the same digest.
   */
  lemma HeadDeterminesLog<P>(c: Codec<P>, a: seq<Event<P>>, b: seq<Event<P>>) returns (i: nat, j: nat)
    requires HexDigests(c.sha)
    requires Verify(c, a).Ok? && Verify(c, b).Ok? && LastHash(a) == LastHash(b)
    requires Decodable(c, a, b)
    ensures SameLog(c, a, b) || RowsCollide(c, a, b, i, j)
  {
    VerifyAccepts(c, a);
    VerifyAccepts(c, b);
    i, j := HeadDetermines(c, a, b);
  }

  /**
   A separator in an id, a correlation id or a type undoes that: another accepted log, with the same
   payloads, has the same head, hash for hash, and the same text hashed in every row.
   */
  lemma TwinLog<P>(c: Codec<P>, a: seq<Event<P>>, k: nat) returns (b: seq<Event<P>>)
    requires Verify(c, a).Ok? && k < |a|
    requires US in a[k].eventId || US in a[k].correlationId || US in a[k].eventType
    ensures Verify(c, b).Ok? && LastHash(b) == LastHash(a) && !SameLog(c, a, b)
    ensures |b| == |a| && forall i: nat :: i < |a| ==>
              b[i].payload == a[i].payload && b[i].hash == a[i].hash && RowText(c, b, i) == RowText(c, a, i)
  {
    var g := AmbiguousContent(FieldsOf(c, a[k]));
    var e := a[k].(eventId := g.eventId, correlationId := g.correlationId, eventType := g.eventType);
    assert FieldsOf(c, e) == g;
    b := a[k := e];
    assert !SameRow(c, a[k], b[k]);
    VerifyAccepts(c, a);
    forall i: nat | i < |a|
      ensures RowText(c, b, i) == RowText(c, a, i) && b[i].hash == a[i].hash && Links(c, LastHash(b[..i]), b[i])
    {
      TwinRow(c, a, k, e, i);
    }
    VerifyAccepts(c, b);
  }

  lemma TwinRow<P>(c: Codec<P>, a: seq<Event<P>>, k: nat, e: Event<P>, i: nat)
    requires Chained(c, a) && k < |a| && i < |a|
    requires e.hash == a[k].hash && e.prevHash == a[k].prevHash
    requires Content(FieldsOf(c, e)) == Content(FieldsOf(c, a[k]))
    ensures var b := a[k := e];
            RowText(c, b, i) == RowText(c, a, i) && b[i].hash == a[i].hash && Links(c, LastHash(b[..i]), b[i])
  {
    assert Links(c, LastHash(a[..i]), a[i]);
    TwinHash(a, k, e, i);
    var prev := LastHash(a[..i]);
    var f, g := FieldsOf(c, a[k]), FieldsOf(c, e);
    assert Preimage(prev, f) == prev + [RS] + Content(f) == Preimage(prev, g);
  }

  lemma TwinHash<P>(a: seq<Event<P>>, k: nat, e: Event<P>, i: nat)
    requires k < |a| && i < |a| && e.hash == a[k].hash
    ensures LastHash(a[k := e][..i]) == LastHash(a[..i])
  {
    var b := a[k := e];
    if i > 0 {
      assert b[..i][i - 1] == b[i - 1] && a[..i][i - 1] == a[i - 1];
    }
  }
}
