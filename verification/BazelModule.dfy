/**
 A whole MODULE.bazel, cut into its `http_file` blocks and the lines outside them: what the rewriter
 does to it and what the checker then finds.
 */
module BazelModule {
  import opened Common
  import opened BazelBlocks

  /** The line that opens a block. */
  function OpenLine(): string { "http_file(" }

  /** A block is opened by this very line, and closed by the first line after it that begins with a parenthesis. */
  lemma MarksAre(line: string)
    ensures OpenLine() == "http_file("
    ensures Passes(line, IsClose) <==> ")" <= line
  {
  }

  /** A line outside the blocks, or a block from its opening line to the first line that closes it. */
  datatype Segment = Outside(line: string) | Block(body: seq<string>, close: string)

  function Parse(lines: seq<string>): seq<Segment>
  {
    if lines == [] then []
    else
      var rest := lines[1..];
      var c := First(rest, IsClose);
      if lines[0] == OpenLine() && c < |rest| then [Block(rest[..c], rest[c])] + Parse(rest[c + 1..])
      else [Outside(lines[0])] + Parse(rest)
  }

  function Lines(segment: Segment): seq<string>
  {
    match segment
    case Outside(line) => [line]
    case Block(body, close) => [OpenLine()] + (body + [close])
  }

  function Flatten(segments: seq<Segment>): seq<string>
  {
    if segments == [] then [] else Lines(segments[0]) + Flatten(segments[1..])
  }

  /** A block closes at its first closing line, and an opening line outside the blocks is never closed. */
  predicate WellCut(segments: seq<Segment>)
  {
    segments != [] ==>
      && WellCut(segments[1..])
      && match segments[0]
         case Outside(line) => line == OpenLine() ==> !Has(Flatten(segments[1..]), IsClose)
         case Block(body, close) => !Has(body, IsClose) && Passes(close, IsClose)
  }

  lemma LinePrepended(line: string, rest: seq<string>)
    requires line == OpenLine() ==> !Has(rest, IsClose)
    ensures Parse([line] + rest) == [Outside(line)] + Parse(rest)
  {
    hide First, Passes, OpenLine;
    assert ([line] + rest)[1..] == rest;
  }

  lemma ParsedBlock(lines: seq<string>, tail: seq<string>)
    requires lines == [OpenLine()] + tail && Has(tail, IsClose)
    ensures var c := First(tail, IsClose); Parse(lines) == [Block(tail[..c], tail[c])] + Parse(tail[c + 1..])
  {
    hide First, Passes, OpenLine;
    assert lines[1..] == tail;
  }

  lemma BlockPrepended(body: seq<string>, close: string, rest: seq<string>)
    requires !Has(body, IsClose) && Passes(close, IsClose)
    ensures Parse(Lines(Block(body, close)) + rest) == [Block(body, close)] + Parse(rest)
  {
    hide First, Passes, OpenLine, Parse, Lines;
    var tail := body + ([close] + rest);
    BlockLines(body, close, rest);
    FirstConcat(body, [close] + rest, IsClose);
    FirstIs([close] + rest, IsClose, 0);
    ParsedBlock(Lines(Block(body, close)) + rest, tail);
    Between(body, close, rest);
  }

  lemma BlockLines(body: seq<string>, close: string, rest: seq<string>)
    ensures Lines(Block(body, close)) + rest == [OpenLine()] + (body + ([close] + rest))
  {
    hide OpenLine;
  }

  lemma SegmentPrepended(segment: Segment, segments: seq<Segment>)
    ensures Flatten([segment] + segments) == Lines(segment) + Flatten(segments)
    ensures WellCut(segments) && segment.Block? && !Has(segment.body, IsClose) && Passes(segment.close, IsClose)
            ==> WellCut([segment] + segments)
    ensures WellCut(segments) && segment.Outside? && (segment.line == OpenLine() ==> !Has(Flatten(segments), IsClose))
            ==> WellCut([segment] + segments)
  {
    hide Lines, Passes, OpenLine, Has;
    assert ([segment] + segments)[1..] == segments;
  }

  lemma BlockTaken(lines: seq<string>)
    requires lines != [] && lines[0] == OpenLine() && Has(lines[1..], IsClose)
    ensures var rest := lines[1..];
            var c := First(rest, IsClose);
            && !Has(rest[..c], IsClose) && Passes(rest[c], IsClose)
            && lines == Lines(Block(rest[..c], rest[c])) + rest[c + 1..]
  {
    hide First, Passes, OpenLine;
    var rest := lines[1..];
    var c := First(rest, IsClose);
    FirstConcat(rest[..c], rest[c..], IsClose);
    assert rest == rest[..c] + rest[c..];
    assert lines == [OpenLine()] + (rest[..c] + [rest[c]]) + rest[c + 1..];
  }

  /** Cutting a text into segments loses nothing. */
  lemma {:induction false} ParsedIsWellCut(lines: seq<string>)
    ensures Flatten(Parse(lines)) == lines && WellCut(Parse(lines))
    decreases |lines|
  {
    if lines != [] {
      hide First, Passes, OpenLine, Lines, WellCut, Flatten, Parse;
      var rest := lines[1..];
      if lines[0] == OpenLine() && Has(rest, IsClose) {
        var c := First(rest, IsClose);
        BlockTaken(lines);
        ParsedIsWellCut(rest[c + 1..]);
        BlockPrepended(rest[..c], rest[c], rest[c + 1..]);
        SegmentPrepended(Block(rest[..c], rest[c]), Parse(rest[c + 1..]));
      } else {
        assert lines == [lines[0]] + rest;
        ParsedIsWellCut(rest);
        LinePrepended(lines[0], rest);
        SegmentPrepended(Outside(lines[0]), Parse(rest));
        assert Lines(Outside(lines[0])) == [lines[0]] by { OneLine(lines[0]); }
      }
    }
  }

  lemma OneLine(line: string)
    ensures Lines(Outside(line)) == [line]
  {
  }

  /** Putting well-cut segments together and cutting the text again gives them back. */
  lemma {:induction false} WellCutIsParsed(segments: seq<Segment>)
    requires WellCut(segments)
    ensures Parse(Flatten(segments)) == segments
    decreases |segments|
  {
    hide First, Passes, OpenLine, Lines, Parse, Has;
    if segments != [] {
      var rest := Flatten(segments[1..]);
      WellCutIsParsed(segments[1..]);
      assert segments == [segments[0]] + segments[1..];
      match segments[0]
      case Outside(line) =>
        OneLine(line);
        LinePrepended(line, rest);
      case Block(body, close) =>
        BlockPrepended(body, close, rest);
    } else {
      NoLines();
    }
  }

  lemma NoLines()
    ensures Parse(Flatten([])) == []
  {
  }
}
