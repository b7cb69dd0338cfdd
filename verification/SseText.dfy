/** The text parser of the event stream (console/sse.py). */
module SseText {
  import opened Results

  /** What `json.loads` yields for a frame body, as far as a frame uses it; `Text` is never empty. */
  datatype TypeField = Falsy | Text(name: string) | NotText
  datatype Json<P> = Object(seqNo: Option<int>, eventType: TypeField, replayed: bool, payload: P) | NotObject

  datatype Frame<P> = Frame(seqNo: int, eventType: string, replayed: bool, payload: P)

  /** JSON decoding, left arbitrary. */
  type Decoder<!P> = string -> Option<Json<P>>

  /** A frame needs an object with an integer `seq` and a type, its own or the one of the event field. */
  function FrameFromData<P>(loads: Decoder<P>, event: Option<string>, data: string): Option<Frame<P>> {
    match loads(data)
    case Some(Object(Some(n), Text(name), replayed, payload)) => Some(Frame(n, name, replayed, payload))
    case Some(Object(Some(n), Falsy, replayed, payload)) =>
      if event.Some? then Some(Frame(n, event.value, replayed, payload)) else None
    case _ => None
  }

  // --- lines ---

  /** `s.rstrip(c)` for one character. */
  function RStrip(s: string, c: char): string {
    if s != "" && s[|s| - 1] == c then RStrip(s[..|s| - 1], c) else s
  }

  function Chomp(raw: string): string {
    RStrip(RStrip(raw, '\n'), '\r')
  }

  /** `line.partition(":")`: the text before the first colon, whether there is one, and the text after it. */
  function Partition(line: string): (string, bool, string) {
    if line == "" then ("", false, "")
    else if line[0] == ':' then ("", true, line[1..])
    else
      var (field, sep, value) := Partition(line[1..]);
      ([line[0]] + field, sep, value)
  }

  /** Field and value of a line; one space after the colon is dropped. */
  function FieldOf(line: string): (string, string) {
    var (field, sep, value) := Partition(line);
    (field, if sep && value != "" && value[0] == ' ' then value[1..] else value)
  }

  function JoinLines(parts: seq<string>): string {
    if parts == [] then ""
    else if |parts| == 1 then parts[0]
    else JoinLines(parts[..|parts| - 1]) + ['\n'] + parts[|parts| - 1]
  }

  // --- the parser ---

  /** The block being read, and the frames yielded. */
  datatype Parser<P> = Parser(event: Option<string>, data: seq<string>, out: seq<Frame<P>>)

  function Dispatched<P>(loads: Decoder<P>, p: Parser<P>): seq<Frame<P>> {
    if p.data == [] then []
    else
      match FrameFromData(loads, p.event, JoinLines(p.data))
      case Some(f) => [f]
      case None => []
  }

  function Step<P>(loads: Decoder<P>, p: Parser<P>, raw: string): Parser<P> {
    var line := Chomp(raw);
    if line == "" then Parser(None, [], p.out + Dispatched(loads, p))
    else if line[0] == ':' then p
    else
      var (field, value) := FieldOf(line);
      if field == "event" then p.(event := Some(value))
      else if field == "data" then p.(data := p.data + [value])
      else p
  }

  function Steps<P>(loads: Decoder<P>, p: Parser<P>, lines: seq<string>): Parser<P> {
    if lines == [] then p else Step(loads, Steps(loads, p, lines[..|lines| - 1]), lines[|lines| - 1])
  }

  /** The frames of a line stream. */
  function Parsed<P>(loads: Decoder<P>, lines: seq<string>): seq<Frame<P>> {
    Steps(loads, Parser(None, [], []), lines).out
  }

  method ParseSseFrames<P>(loads: Decoder<P>, lines: seq<string>) returns (frames: seq<Frame<P>>)
    ensures frames == Parsed(loads, lines)
  {
    var event: Option<string>, dataParts: seq<string> := None, [];
    frames := [];
    for i := 0 to |lines|
      invariant Steps(loads, Parser(None, [], []), lines[..i]) == Parser(event, dataParts, frames)
    {
      assert lines[..i + 1][..i] == lines[..i];
      var line := Chomp(lines[i]);
      if line == "" {
        if dataParts != [] {
          var frame := FrameFromData(loads, event, JoinLines(dataParts));
          if frame.Some? {
            frames := frames + [frame.value];
          }
        }
        event, dataParts := None, [];
        continue;
      }
      if line[0] == ':' {
        continue;
      }
      var (field, value) := FieldOf(line);
      if field == "event" {
        event := Some(value);
      } else if field == "data" {
        dataParts := dataParts + [value];
      }
    }
    assert lines[..|lines|] == lines;
  }

  // --- streaming ---

  lemma {:induction false} StepsConcat<P>(loads: Decoder<P>, p: Parser<P>, a: seq<string>, b: seq<string>)
    ensures Steps(loads, p, a + b) == Steps(loads, Steps(loads, p, a), b)
  {
    if b == [] {
      assert a + b == a;
    } else {
      assert (a + b)[..|a + b| - 1] == a + b[..|b| - 1];
      StepsConcat(loads, p, a, b[..|b| - 1]);
    }
  }

  lemma {:induction false} OnlyGrows<P>(loads: Decoder<P>, p: Parser<P>, lines: seq<string>)
    ensures p.out <= Steps(loads, p, lines).out
    ensures (forall i :: 0 <= i < |lines| ==> Chomp(lines[i]) != "") ==> Steps(loads, p, lines).out == p.out
  {
    if lines != [] {
      OnlyGrows(loads, p, lines[..|lines| - 1]);
    }
  }

  /**
   What has been read so far yields a prefix of the frames, and a trailing block without its blank
   line yields none.
   */
  lemma PrefixesParse<P>(loads: Decoder<P>, lines: seq<string>, more: seq<string>)
    ensures Parsed(loads, lines) <= Parsed(loads, lines + more)
    ensures (forall i :: 0 <= i < |more| ==> Chomp(more[i]) != "") ==> Parsed(loads, lines + more) == Parsed(loads, lines)
  {
    var start := Parser<P>.Parser(None, [], []);
    StepsConcat(loads, start, lines, more);
    OnlyGrows(loads, Steps(loads, start, lines), more);
  }

  predicate IsComment(raw: string) {
    Chomp(raw) != "" && Chomp(raw)[0] == ':'
  }

  function Uncommented(lines: seq<string>): seq<string> {
    if lines == [] then []
    else Uncommented(lines[..|lines| - 1]) + if IsComment(lines[|lines| - 1]) then [] else [lines[|lines| - 1]]
  }

  /** Comment lines may stand anywhere, inside a block too: they change nothing. */
  lemma {:induction false} CommentsVanish<P>(loads: Decoder<P>, p: Parser<P>, lines: seq<string>)
    ensures Steps(loads, p, lines) == Steps(loads, p, Uncommented(lines))
  {
    if lines != [] {
      var front, last := lines[..|lines| - 1], lines[|lines| - 1];
      CommentsVanish(loads, p, front);
      if IsComment(last) {
        assert Uncommented(lines) == Uncommented(front);
      } else {
        assert Uncommented(lines)[..|Uncommented(lines)| - 1] == Uncommented(front);
      }
    }
  }

  // --- round trip ---

  /** A frame as it is written: an optional event line, and the data split into lines. */
  datatype Block = Block(event: Option<string>, data: seq<string>)

  function FieldLine(field: string, value: string): string {
    field + [':'] + ([' '] + value + ['\n'])
  }

  function DataLines(data: seq<string>): seq<string> {
    if data == [] then [] else DataLines(data[..|data| - 1]) + [FieldLine("data", data[|data| - 1])]
  }

  function EventLines(event: Option<string>): seq<string> {
    match event
    case Some(e) => [FieldLine("event", e)]
    case None => []
  }

  function BlockLines(b: Block): seq<string> {
    EventLines(b.event) + DataLines(b.data) + ["\n"]
  }

  function AllLines(blocks: seq<Block>): seq<string> {
    if blocks == [] then [] else AllLines(blocks[..|blocks| - 1]) + BlockLines(blocks[|blocks| - 1])
  }

  /** The text ends in no character that the parser strips off a line. */
  predicate EndsClean(s: string) {
    s == "" || (s[|s| - 1] != '\n' && s[|s| - 1] != '\r')
  }

  lemma {:induction false} RStripIs(s: string, c: char)
    ensures RStrip(s, c) == s <==> s == "" || s[|s| - 1] != c
    ensures RStrip(s, c) <= s
  {
    if s != "" && s[|s| - 1] == c {
      RStripIs(s[..|s| - 1], c);
    }
  }

  lemma {:induction false} PartitionAt(field: string, value: string)
    requires ':' !in field
    ensures Partition(field + [':'] + value) == (field, true, value)
  {
    var line := field + [':'] + value;
    if field == "" {
      assert line[1..] == value;
    } else {
      assert line[1..] == field[1..] + [':'] + value;
      PartitionAt(field[1..], value);
      assert field == [field[0]] + field[1..];
    }
  }

  lemma {:induction false} RStripConcat(a: string, b: string, c: char)
    requires a != "" && a[|a| - 1] != c
    ensures RStrip(a + b, c) == a + RStrip(b, c)
  {
    if b == "" {
      assert a + b == a;
    } else if b[|b| - 1] == c {
      assert (a + b)[..|a + b| - 1] == a + b[..|b| - 1];
      RStripConcat(a, b[..|b| - 1], c);
    }
  }

  /** The text of a value as the parser keeps it. */
  lemma ChompLine(field: string, value: string)
    ensures Chomp(FieldLine(field, value)) == field + [':'] + ([' '] + Chomp(value))
  {
    var head := field + [':'] + [' '];
    assert FieldLine(field, value) == head + (value + ['\n']);
    RStripConcat(head, value + ['\n'], '\n');
    assert (value + ['\n'])[..|value|] == value;
    RStripConcat(head, RStrip(value, '\n'), '\r');
    assert field + [':'] + ([' '] + Chomp(value)) == head + Chomp(value);
  }

  /** A value survives its line exactly when it does not end in a newline or a carriage return. */
  lemma LineReads(field: string, value: string)
    requires ':' !in field && field != ""
    ensures Chomp(FieldLine(field, value)) != "" && Chomp(FieldLine(field, value))[0] != ':'
    ensures FieldOf(Chomp(FieldLine(field, value))) == (field, Chomp(value))
    ensures Chomp(value) == value <==> EndsClean(value)
  {
    ChompLine(field, value);
    PartitionAt(field, [' '] + Chomp(value));
    RStripIs(value, '\n');
    RStripIs(value, '\r');
    RStripIs(RStrip(value, '\n'), '\r');
  }

  function ChompAll(data: seq<string>): seq<string> {
    seq(|data|, i requires 0 <= i < |data| => Chomp(data[i]))
  }

  function ChompBlock(b: Block): Block {
    Block(if b.event.Some? then Some(Chomp(b.event.value)) else None, ChompAll(b.data))
  }

  /** The frame of a block, if it has data that makes one. */
  function FrameOf<P>(loads: Decoder<P>, b: Block): seq<Frame<P>> {
    Dispatched(loads, Parser(b.event, b.data, []))
  }

  function FramesOf<P>(loads: Decoder<P>, blocks: seq<Block>): seq<Frame<P>> {
    if blocks == [] then []
    else FramesOf(loads, blocks[..|blocks| - 1]) + FrameOf(loads, ChompBlock(blocks[|blocks| - 1]))
  }

  lemma {:induction false} DataLinesRead<P>(loads: Decoder<P>, p: Parser<P>, data: seq<string>)
    ensures Steps(loads, p, DataLines(data)) == p.(data := p.data + ChompAll(data))
  {
    if data == [] {
      assert p.data + ChompAll(data) == p.data;
    } else {
      var front, last := data[..|data| - 1], data[|data| - 1];
      DataLinesRead(loads, p, front);
      StepsConcat(loads, p, DataLines(front), [FieldLine("data", last)]);
      LineReads("data", last);
      assert ChompAll(data) == ChompAll(front) + [Chomp(last)];
    }
  }

  lemma EventLinesRead<P>(loads: Decoder<P>, p: Parser<P>, event: Option<string>)
    requires p.event == None
    ensures Steps(loads, p, EventLines(event)) ==
            p.(event := if event.Some? then Some(Chomp(event.value)) else None)
  {
    if event.Some? {
      LineReads("event", event.value);
    }
  }

  lemma BlockReads<P>(loads: Decoder<P>, out: seq<Frame<P>>, b: Block)
    ensures Steps(loads, Parser(None, [], out), BlockLines(b)) ==
            Parser(None, [], out + FrameOf(loads, ChompBlock(b)))
  {
    var p0 := Parser(None, [], out);
    var p1 := p0.(event := ChompBlock(b).event);
    var p2 := p1.(data := ChompBlock(b).data);
    EventLinesRead(loads, p0, b.event);
    DataLinesRead(loads, p1, b.data);
    assert [] + ChompAll(b.data) == ChompAll(b.data);
    StepsConcat(loads, p0, EventLines(b.event), DataLines(b.data));
    StepsConcat(loads, p0, EventLines(b.event) + DataLines(b.data), ["\n"]);
  }

  lemma {:induction false} BlocksRead<P>(loads: Decoder<P>, blocks: seq<Block>)
    ensures Steps(loads, Parser(None, [], []), AllLines(blocks)) == Parser(None, [], FramesOf(loads, blocks))
  {
    if blocks != [] {
      var front, last := blocks[..|blocks| - 1], blocks[|blocks| - 1];
      BlocksRead(loads, front);
      StepsConcat(loads, Parser(None, [], []), AllLines(front), BlockLines(last));
      BlockReads(loads, FramesOf(loads, front), last);
    }
  }

  /**
   Written blocks, with comments anywhere between their lines and an unfinished block at the end, read
   back as their frames and nothing else.
   */
  lemma WrittenBlocksRead<P>(loads: Decoder<P>, blocks: seq<Block>, lines: seq<string>, unfinished: seq<string>)
    requires Uncommented(lines) == AllLines(blocks)
    requires forall i :: 0 <= i < |unfinished| ==> Chomp(unfinished[i]) != ""
    ensures Parsed(loads, lines + unfinished) == FramesOf(loads, blocks)
  {
    PrefixesParse(loads, lines, unfinished);
    CommentsVanish(loads, Parser(None, [], []), lines);
    BlocksRead(loads, blocks);
  }

  /** A block that no line ending cuts into. */
  ghost predicate CleanBlock(b: Block) {
    (b.event.Some? ==> EndsClean(b.event.value)) && forall i :: 0 <= i < |b.data| ==> EndsClean(b.data[i])
  }

  /** A block is read back as written exactly when none of its lines ends in a line ending of its own. */
  lemma BlockSurvives(b: Block)
    ensures ChompBlock(b) == b <==> CleanBlock(b)
  {
    if b.event.Some? {
      LineReads("event", b.event.value);
    }
    forall i | 0 <= i < |b.data| ensures ChompAll(b.data)[i] == b.data[i] <==> EndsClean(b.data[i]) {
      LineReads("data", b.data[i]);
    }
    if CleanBlock(b) {
      assert ChompAll(b.data) == b.data;
    }
  }

  // --- frames in, frames out ---

  /** A body cut at its newlines. */
  function Split(d: string): (r: seq<string>)
    ensures r != []
  {
    if d == "" then [""]
    else
      var front, c := Split(d[..|d| - 1]), d[|d| - 1];
      if c == '\n' then front + [""] else front[..|front| - 1] + [front[|front| - 1] + [c]]
  }

  lemma JoinNext(front: seq<string>, last: string)
    requires front != []
    ensures JoinLines(front + [last]) == JoinLines(front) + ['\n'] + last
  {
    assert (front + [last])[..|front|] == front;
  }

  /** Lengthening the last line lengthens the joined text. */
  lemma JoinExtends(front: seq<string>, last: string, c: char)
    ensures JoinLines(front + [last + [c]]) == JoinLines(front + [last]) + [c]
  {
    if front == [] {
      assert front + [last] == [last] && front + [last + [c]] == [last + [c]];
    } else {
      JoinNext(front, last);
      JoinNext(front, last + [c]);
    }
  }

  /** Joining the lines of a body gives the body back, and no line holds a newline. */
  lemma {:induction false} SplitJoins(d: string)
    ensures JoinLines(Split(d)) == d
    ensures forall i :: 0 <= i < |Split(d)| ==> '\n' !in Split(d)[i]
  {
    if d != "" {
      var parts, c := Split(d[..|d| - 1]), d[|d| - 1];
      var front, last := parts[..|parts| - 1], parts[|parts| - 1];
      SplitJoins(d[..|d| - 1]);
      assert parts == front + [last] && d == d[..|d| - 1] + [c];
      if c == '\n' {
        JoinNext(parts, "");
      } else {
        JoinExtends(front, last, c);
      }
    }
  }

  /** No line of the body ends in a carriage return. */
  predicate NoTrailingReturn(d: string) {
    forall i :: 0 <= i < |d| && d[i] == '\r' ==> i + 1 < |d| && d[i + 1] != '\n'
  }

  /** The same, but for the last line. */
  predicate NoInnerReturn(d: string) {
    forall i :: 0 <= i < |d| - 1 && d[i] == '\r' ==> d[i + 1] != '\n'
  }

  ghost predicate AllEndClean(parts: seq<string>) {
    forall i :: 0 <= i < |parts| ==> EndsClean(parts[i])
  }

  lemma NoInnerReturnGrows(d: string, c: char)
    ensures NoInnerReturn(d + [c]) <==> NoInnerReturn(d) && (c == '\n' ==> d == "" || d[|d| - 1] != '\r')
  {
    var more := d + [c];
    assert forall i :: 0 <= i < |d| ==> more[i] == d[i];
    if NoInnerReturn(more) {
      forall i | 0 <= i < |d| - 1 && d[i] == '\r' ensures d[i + 1] != '\n' {
        assert more[i] == '\r';
      }
      assert d != "" && more[|d| - 1] == '\r' ==> more[|d| - 1 + 1] != '\n';
    } else if NoInnerReturn(d) {
      assert forall i :: 0 <= i < |d| - 1 && more[i] == '\r' ==> d[i] == '\r' && more[i + 1] != '\n';
    }
  }

  lemma {:induction false} LastPart(d: string)
    ensures var last := Split(d)[|Split(d)| - 1];
            EndsClean(last) <==> d == "" || d[|d| - 1] != '\r'
  {
    if d != "" {
      LastPart(d[..|d| - 1]);
    }
  }

  lemma {:induction false} FrontParts(d: string)
    ensures AllEndClean(Split(d)[..|Split(d)| - 1]) <==> NoInnerReturn(d)
  {
    if d != "" {
      var front, c := d[..|d| - 1], d[|d| - 1];
      var parts := Split(front);
      assert d == front + [c];
      FrontParts(front);
      LastPart(front);
      NoInnerReturnGrows(front, c);
      assert parts == parts[..|parts| - 1] + [parts[|parts| - 1]];
      if c == '\n' {
        assert Split(d)[..|Split(d)| - 1] == parts;
        assert AllEndClean(parts) <==> AllEndClean(parts[..|parts| - 1]) && EndsClean(parts[|parts| - 1]);
      } else {
        assert Split(d)[..|Split(d)| - 1] == parts[..|parts| - 1];
      }
    }
  }

  /** The lines of a body survive exactly when none of them ends in a carriage return. */
  lemma BodySurvives(d: string)
    ensures AllEndClean(Split(d)) <==> NoTrailingReturn(d)
  {
    var parts := Split(d);
    FrontParts(d);
    LastPart(d);
    assert parts == parts[..|parts| - 1] + [parts[|parts| - 1]];
    assert AllEndClean(parts) <==> AllEndClean(parts[..|parts| - 1]) && EndsClean(parts[|parts| - 1]);
  }

  /** How a frame is written, given how its body is encoded. */
  function Written<P>(enc: Frame<P> -> string, f: Frame<P>): Block {
    Block(Some(f.eventType), Split(enc(f)))
  }

  function WrittenAll<P>(enc: Frame<P> -> string, frames: seq<Frame<P>>): seq<Block> {
    if frames == [] then []
    else WrittenAll(enc, frames[..|frames| - 1]) + [Written(enc, frames[|frames| - 1])]
  }

  /** The body decodes to the frame, and neither it nor the type has a line that ends in a carriage return. */
  ghost predicate Writable<P>(loads: Decoder<P>, enc: Frame<P> -> string, f: Frame<P>) {
    FrameFromData(loads, Some(f.eventType), enc(f)) == Some(f) && EndsClean(f.eventType) && NoTrailingReturn(enc(f))
  }

  lemma WrittenReads<P>(loads: Decoder<P>, enc: Frame<P> -> string, f: Frame<P>)
    requires Writable(loads, enc, f)
    ensures FrameOf(loads, ChompBlock(Written(enc, f))) == [f]
  {
    SplitJoins(enc(f));
    BodySurvives(enc(f));
    BlockSurvives(Written(enc, f));
  }

  lemma FramesOfNext<P>(loads: Decoder<P>, blocks: seq<Block>, b: Block)
    ensures FramesOf(loads, blocks + [b]) == FramesOf(loads, blocks) + FrameOf(loads, ChompBlock(b))
  {
    assert (blocks + [b])[..|blocks|] == blocks;
  }

  lemma {:induction false} WrittenAllRead<P>(loads: Decoder<P>, enc: Frame<P> -> string, frames: seq<Frame<P>>)
    requires forall f :: f in frames ==> Writable(loads, enc, f)
    ensures FramesOf(loads, WrittenAll(enc, frames)) == frames
  {
    if frames != [] {
      var front, f := frames[..|frames| - 1], frames[|frames| - 1];
      WrittenAllRead(loads, enc, front);
      WrittenReads(loads, enc, f);
      FramesOfNext(loads, WrittenAll(enc, front), Written(enc, f));
      assert frames == front + [f];
    }
  }

  /**
   Frames in, frames out: parsing what any list of frames is written as, bodies cut at their newlines,
   comments anywhere and an unfinished block at the end, yields exactly those frames in order.
   */
  lemma FramesRoundTrip<P>(loads: Decoder<P>, enc: Frame<P> -> string, frames: seq<Frame<P>>,
                           lines: seq<string>, unfinished: seq<string>)
    requires forall f :: f in frames ==> Writable(loads, enc, f)
    requires Uncommented(lines) == AllLines(WrittenAll(enc, frames))
    requires forall i :: 0 <= i < |unfinished| ==> Chomp(unfinished[i]) != ""
    ensures Parsed(loads, lines + unfinished) == frames
  {
    WrittenBlocksRead(loads, WrittenAll(enc, frames), lines, unfinished);
    WrittenAllRead(loads, enc, frames);
  }
}
