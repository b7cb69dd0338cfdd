/** The event stream told block by block: lines, fields, blocks and frames, each by what they are (console/sse.py). */
module SseBlocks {
  import opened Results
  import opened SseText

  // --- lines and fields ---

  ghost predicate Only(s: string, c: char) {
    forall i :: 0 <= i < |s| ==> s[i] == c
  }

  lemma {:induction false} RStripSplits(s: string, c: char) returns (tail: string)
    ensures s == RStrip(s, c) + tail && Only(tail, c)
    ensures RStrip(s, c) != "" ==> RStrip(s, c)[|RStrip(s, c)| - 1] != c
  {
    tail := "";
    if s != "" && s[|s| - 1] == c {
      var more := RStripSplits(s[..|s| - 1], c);
      tail := more + [c];
    }
  }

  /** A line loses its newlines, then the carriage returns before them, and nothing else. */
  lemma ChompSplits(raw: string) returns (crs: string, lfs: string)
    ensures raw == Chomp(raw) + crs + lfs && Only(crs, '\r') && Only(lfs, '\n')
    ensures Chomp(raw) != "" ==> Chomp(raw)[|Chomp(raw)| - 1] != '\r'
    ensures Chomp(raw) != "" && crs == "" ==> Chomp(raw)[|Chomp(raw)| - 1] != '\n'
  {
    lfs := RStripSplits(raw, '\n');
    crs := RStripSplits(RStrip(raw, '\n'), '\r');
  }

  /** The field is what stands before the first colon, the value what follows it but for one space. */
  ghost predicate Reads(line: string, field: string, value: string) {
    ':' !in field &&
    ((line == field && value == "")
     || (line == field + [':'] + value && (value == "" || value[0] != ' '))
     || line == field + [':'] + ([' '] + value))
  }

  lemma {:induction false} PartitionNone(line: string)
    requires ':' !in line
    ensures Partition(line) == (line, false, "")
  {
    if line != "" {
      PartitionNone(line[1..]);
      assert line == [line[0]] + line[1..];
    }
  }

  lemma ReadsField(line: string, field: string, value: string)
    requires Reads(line, field, value)
    ensures FieldOf(line) == (field, value)
  {
    if line == field {
      PartitionNone(line);
    } else if line == field + [':'] + value {
      PartitionAt(field, value);
    } else {
      PartitionAt(field, [' '] + value);
    }
  }

  lemma {:induction false} PartitionSplits(line: string)
    ensures var (field, sep, value) := Partition(line);
            ':' !in field && line == if sep then field + [':'] + value else field
    ensures !Partition(line).1 ==> Partition(line).2 == ""
  {
    if line != "" && line[0] != ':' {
      PartitionSplits(line[1..]);
    }
  }

  /** Every line has exactly one field and one value. */
  lemma FieldExact(line: string, field: string, value: string)
    ensures FieldOf(line) == (field, value) <==> Reads(line, field, value)
  {
    if Reads(line, field, value) {
      ReadsField(line, field, value);
    }
    if FieldOf(line) == (field, value) {
      PartitionSplits(line);
      var (_, sep, tail) := Partition(line);
      if sep && tail != "" && tail[0] == ' ' {
        assert tail == [' '] + tail[1..];
      }
    }
  }

  // --- frames ---

  /** A frame comes from an object with its number; the object's own type goes before the event field's. */
  lemma FrameExact<P>(loads: Decoder<P>, event: Option<string>, data: string, f: Frame<P>)
    ensures FrameFromData(loads, event, data) == Some(f) <==>
              || loads(data) == Some(Object(Some(f.seqNo), Text(f.eventType), f.replayed, f.payload))
              || (loads(data) == Some(Object(Some(f.seqNo), Falsy, f.replayed, f.payload)) && event == Some(f.eventType))
  {
  }

  // --- blocks ---

  /** The value of the last line of the block with this field. */
  function LastValue(lines: seq<string>, field: string): Option<string> {
    if lines == [] then None
    else
      var (name, value) := FieldOf(Chomp(lines[|lines| - 1]));
      if name == field then Some(value) else LastValue(lines[..|lines| - 1], field)
  }

  /** The values of all its lines with this field. */
  function AllValues(lines: seq<string>, field: string): seq<string> {
    if lines == [] then []
    else
      var (name, value) := FieldOf(Chomp(lines[|lines| - 1]));
      AllValues(lines[..|lines| - 1], field) + if name == field then [value] else []
  }

  /** The frame of a block: its data lines joined, under the type of its last event line. */
  function BlockFrame<P>(loads: Decoder<P>, lines: seq<string>): seq<Frame<P>> {
    if AllValues(lines, "data") == [] then []
    else
      match FrameFromData(loads, LastValue(lines, "event"), JoinLines(AllValues(lines, "data")))
      case Some(f) => [f]
      case None => []
  }

  /** The lines of the block that the last line belongs to, or ends. */
  function OpenBlock(lines: seq<string>): seq<string> {
    if lines == [] || Chomp(lines[|lines| - 1]) == "" then []
    else OpenBlock(lines[..|lines| - 1]) + [lines[|lines| - 1]]
  }

  /** One block for each blank line: the lines between it and the blank line before. */
  function Blocks(lines: seq<string>): seq<seq<string>> {
    if lines == [] then []
    else if Chomp(lines[|lines| - 1]) == "" then Blocks(lines[..|lines| - 1]) + [OpenBlock(lines[..|lines| - 1])]
    else Blocks(lines[..|lines| - 1])
  }

  function BlockFrames<P>(loads: Decoder<P>, blocks: seq<seq<string>>): seq<Frame<P>> {
    if blocks == [] then []
    else BlockFrames(loads, blocks[..|blocks| - 1]) + BlockFrame(loads, blocks[|blocks| - 1])
  }

  lemma CommentField(line: string)
    requires line != "" && line[0] == ':'
    ensures FieldOf(line).0 == ""
  {
  }

  /** The parser holds the type and the data of the block it is in, and has yielded the frames of those before. */
  lemma {:induction false} StepsAreBlocks<P>(loads: Decoder<P>, lines: seq<string>)
    ensures Steps(loads, Parser(None, [], []), lines) ==
            Parser(LastValue(OpenBlock(lines), "event"), AllValues(OpenBlock(lines), "data"), BlockFrames(loads, Blocks(lines)))
  {
    if lines != [] {
      var front, raw := lines[..|lines| - 1], lines[|lines| - 1];
      StepsAreBlocks(loads, front);
      if Chomp(raw) != "" && Chomp(raw)[0] == ':' {
        CommentField(Chomp(raw));
      }
    }
  }

  /** The frames of a stream are those of its blocks, a comment line counting as no field, and the last, open block as none. */
  lemma ParsedByBlocks<P>(loads: Decoder<P>, lines: seq<string>)
    ensures Parsed(loads, lines) == BlockFrames(loads, Blocks(lines))
  {
    StepsAreBlocks(loads, lines);
  }
}
