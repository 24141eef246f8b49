/** The rewriter's and the checker's verdicts on a text, and how they fit together. */
module BazelRewrite {
  import opened Common
  import opened BazelLines
  import opened BazelBlocks
  import opened BazelModule

  type Checksums = map<string, string>

  /** What a checksum manifest holds: 64 hexadecimal digits for each file. */
  ghost predicate Manifest(checksums: Checksums)
  {
    forall file {:trigger checksums[file]} :: file in checksums ==> IsHex(checksums[file]) && |checksums[file]| == 64
  }

  /** A block of the version: its name begins with the version's prefix. */
  predicate Versioned(segment: Segment, prefix: string)
    ensures Versioned(segment, prefix) ==> segment.Block?
  {
    && segment.Block?
    && StringField(segment.body, Name).Some?
    && prefix <= StringField(segment.body, Name).value
  }

  function PathOf(segment: Segment): string
  {
    if segment.Block? && StringField(segment.body, FilePath).Some? then StringField(segment.body, FilePath).value else ""
  }

  ghost predicate PathsPresent(segments: seq<Segment>, prefix: string)
  {
    forall i {:trigger segments[i]} :: 0 <= i < |segments| && Versioned(segments[i], prefix)
      ==> StringField(segments[i].body, FilePath).Some?
  }

  /** The files of the version's blocks, in order. */
  function Paths(segments: seq<Segment>, prefix: string): seq<string>
  {
    if segments == [] then []
    else (if Versioned(segments[0], prefix) then [PathOf(segments[0])] else []) + Paths(segments[1..], prefix)
  }

  /** The files and the manifest name each other, each file once. */
  ghost predicate Matches(paths: seq<string>, checksums: Checksums)
  {
    && paths != []
    && (forall i, j :: 0 <= i < j < |paths| ==> paths[i] != paths[j])
    && (forall file :: file in paths <==> file in checksums)
  }

  ghost predicate Insertable(segments: seq<Segment>, prefix: string)
  {
    forall i {:trigger segments[i]} :: 0 <= i < |segments| && Versioned(segments[i], prefix)
      ==> Has(segments[i].body, IsHexSha) || Has(segments[i].body, IsTightPath)
  }

  /** When the rewriter succeeds. */
  ghost predicate Updatable(segments: seq<Segment>, prefix: string, checksums: Checksums)
  {
    PathsPresent(segments, prefix) && Matches(Paths(segments, prefix), checksums) && Insertable(segments, prefix)
  }

  ghost predicate ShaRight(segment: Segment, checksums: Checksums)
  {
    && segment.Block? && PathOf(segment) in checksums
    && StringField(segment.body, Sha) == Some(checksums[PathOf(segment)])
  }

  ghost predicate ShasRight(segments: seq<Segment>, prefix: string, checksums: Checksums)
  {
    forall i {:trigger segments[i]} :: 0 <= i < |segments| && Versioned(segments[i], prefix)
      ==> ShaRight(segments[i], checksums)
  }

  /** When the checker reports nothing. */
  ghost predicate Current(segments: seq<Segment>, prefix: string, checksums: Checksums)
  {
    && PathsPresent(segments, prefix) && Matches(Paths(segments, prefix), checksums)
    && ShasRight(segments, prefix, checksums)
  }

  function Rewrite(segment: Segment, prefix: string, checksums: Checksums): Segment
  {
    if Versioned(segment, prefix) && PathOf(segment) in checksums
       && WithSha(segment.body, checksums[PathOf(segment)]).Some?
    then segment.(body := WithSha(segment.body, checksums[PathOf(segment)]).value)
    else segment
  }

  function RewriteAll(segments: seq<Segment>, prefix: string, checksums: Checksums): seq<Segment>
  {
    if segments == [] then []
    else [Rewrite(segments[0], prefix, checksums)] + RewriteAll(segments[1..], prefix, checksums)
  }

  // ---------------------------------------------------------------------------------------------
  // One segment
  // ---------------------------------------------------------------------------------------------

  lemma ChecksumFits(checksums: Checksums, file: string)
    requires Manifest(checksums) && file in checksums
    ensures IsHex(checksums[file]) && checksums[file] != ""
  {
  }

  /** Rewriting a segment keeps what identifies it. */
  lemma SegmentKept(segment: Segment, prefix: string, checksums: Checksums)
    requires Manifest(checksums)
    ensures var rewritten := Rewrite(segment, prefix, checksums);
            && (Versioned(rewritten, prefix) <==> Versioned(segment, prefix))
            && PathOf(rewritten) == PathOf(segment)
            && (segment.Block? <==> rewritten.Block?)
            && (segment.Block? ==>
                  && rewritten.close == segment.close
                  && StringField(rewritten.body, Name) == StringField(segment.body, Name)
                  && StringField(rewritten.body, FilePath) == StringField(segment.body, FilePath)
                  && (Has(rewritten.body, IsClose) <==> Has(segment.body, IsClose)))
            && (!Versioned(segment, prefix) ==> rewritten == segment)
  {
    hide StringField, WithSha, Has, Manifest;
    if Rewrite(segment, prefix, checksums) != segment {
      var checksum := checksums[PathOf(segment)];
      ChecksumFits(checksums, PathOf(segment));
      OtherFieldsKept(segment.body, checksum, Name);
      OtherFieldsKept(segment.body, checksum, FilePath);
      StaysOpen(segment.body, checksum);
    }
  }

  // ---------------------------------------------------------------------------------------------
  // All segments
  // ---------------------------------------------------------------------------------------------

  lemma {:induction false} RewriteAllAt(segments: seq<Segment>, prefix: string, checksums: Checksums, i: int)
    ensures |RewriteAll(segments, prefix, checksums)| == |segments|
    ensures 0 <= i < |segments| ==>
              RewriteAll(segments, prefix, checksums)[i] == Rewrite(segments[i], prefix, checksums)
  {
    hide Rewrite;
    if segments != [] {
      RewriteAllAt(segments[1..], prefix, checksums, i - 1);
    }
  }

  lemma {:induction false} PathsKept(segments: seq<Segment>, prefix: string, checksums: Checksums)
    requires Manifest(checksums)
    ensures Paths(RewriteAll(segments, prefix, checksums), prefix) == Paths(segments, prefix)
  {
    hide Rewrite, Versioned, PathOf, Manifest;
    if segments != [] {
      PathsKept(segments[1..], prefix, checksums);
      SegmentKept(segments[0], prefix, checksums);
      assert RewriteAll(segments, prefix, checksums)[1..] == RewriteAll(segments[1..], prefix, checksums);
    }
  }

  lemma HasConcat(a: seq<string>, b: seq<string>, test: Test)
    ensures Has(a + b, test) <==> Has(a, test) || Has(b, test)
  {
    hide First;
    FirstConcat(a, b, test);
  }

  lemma BlockHasClose(body: seq<string>, close: string)
    requires Passes(close, IsClose)
    ensures Has(Lines(Block(body, close)), IsClose)
  {
    hide Passes, OpenLine;
    FirstIs([close], IsClose, 0);
    HasConcat(body, [close], IsClose);
    HasConcat([OpenLine()], body + [close], IsClose);
  }

  lemma {:induction false} CutKept(segments: seq<Segment>, prefix: string, checksums: Checksums)
    requires Manifest(checksums) && WellCut(segments)
    ensures var rewritten := RewriteAll(segments, prefix, checksums);
            && WellCut(rewritten)
            && (Has(Flatten(rewritten), IsClose) <==> Has(Flatten(segments), IsClose))
  {
    hide Rewrite, Versioned, PathOf, Manifest, Has, Lines, OpenLine, Passes;
    if segments != [] {
      var rest := RewriteAll(segments[1..], prefix, checksums);
      var first := Rewrite(segments[0], prefix, checksums);
      assert RewriteAll(segments, prefix, checksums)[1..] == rest;
      CutKept(segments[1..], prefix, checksums);
      SegmentKept(segments[0], prefix, checksums);
      HasConcat(Lines(segments[0]), Flatten(segments[1..]), IsClose);
      HasConcat(Lines(first), Flatten(rest), IsClose);
      if segments[0].Block? {
        BlockHasClose(segments[0].body, segments[0].close);
        BlockHasClose(first.body, first.close);
      } else {
        OutsideKept(segments[0], prefix, checksums);
      }
    }
  }

  lemma OutsideKept(segment: Segment, prefix: string, checksums: Checksums)
    requires segment.Outside?
    ensures Rewrite(segment, prefix, checksums) == segment
  {
  }

  /** The rewritten text is cut at the same places when it is read again. */
  lemma ReadAgain(lines: seq<string>, prefix: string, checksums: Checksums)
    requires Manifest(checksums)
    ensures var rewritten := RewriteAll(Parse(lines), prefix, checksums);
            Parse(Flatten(rewritten)) == rewritten
  {
    hide RewriteAll, WellCut, Parse, Flatten, Manifest;
    ParsedIsWellCut(lines);
    CutKept(Parse(lines), prefix, checksums);
    WellCutIsParsed(RewriteAll(Parse(lines), prefix, checksums));
  }

  // ---------------------------------------------------------------------------------------------
  // Rewriting, then checking or rewriting again
  // ---------------------------------------------------------------------------------------------

  /** The rewriter's text. */
  function Updated(lines: seq<string>, prefix: string, checksums: Checksums): seq<string>
  {
    Flatten(RewriteAll(Parse(lines), prefix, checksums))
  }

  /** Every block of the version is one whose checksum the rewriter gets to be read. */
  ghost predicate AllRefreshable(segments: seq<Segment>, prefix: string)
  {
    forall i {:trigger segments[i]} :: 0 <= i < |segments| && Versioned(segments[i], prefix) ==> Refreshable(segments[i].body)
  }

  ghost predicate AllSettled(segments: seq<Segment>, prefix: string)
  {
    forall i {:trigger segments[i]} :: 0 <= i < |segments| && Versioned(segments[i], prefix) ==> Settled(segments[i].body)
  }

  lemma {:induction false} PathListed(segments: seq<Segment>, prefix: string, i: nat)
    requires i < |segments| && Versioned(segments[i], prefix)
    ensures PathOf(segments[i]) in Paths(segments, prefix)
  {
    hide Versioned, PathOf;
    if i > 0 {
      PathListed(segments[1..], prefix, i - 1);
    }
  }

  /** A block of the version in an updatable text, and its rewriting. */
  lemma BlockUpdated(segments: seq<Segment>, prefix: string, checksums: Checksums, i: nat)
    requires Manifest(checksums) && Updatable(segments, prefix, checksums)
    requires i < |segments| && Versioned(segments[i], prefix)
    ensures var segment, path := segments[i], PathOf(segments[i]);
            && path in checksums && IsHex(checksums[path]) && checksums[path] != ""
            && StringField(segment.body, FilePath).Some?
            && WithSha(segment.body, checksums[path]).Some?
            && Rewrite(segment, prefix, checksums) == segment.(body := WithSha(segment.body, checksums[path]).value)
  {
    hide Versioned, PathOf, StringField, Has, CutOf, Paths;
    PathListed(segments, prefix, i);
    ChecksumFits(checksums, PathOf(segments[i]));
    assert Has(segments[i].body, IsHexSha) || Has(segments[i].body, IsTightPath);
  }

  lemma BlockCurrent(segments: seq<Segment>, prefix: string, checksums: Checksums, i: nat)
    requires Manifest(checksums) && Updatable(segments, prefix, checksums)
    requires i < |segments| && Versioned(segments[i], prefix)
    ensures ShaRight(Rewrite(segments[i], prefix, checksums), checksums) <==> Refreshable(segments[i].body)
  {
    BlockUpdated(segments, prefix, checksums, i);
    SegmentKept(segments[i], prefix, checksums);
    hide Updatable, Manifest, StringField, WithSha, Refreshable, Versioned, PathOf, Rewrite;
    ChecksumRead(segments[i].body, checksums[PathOf(segments[i])]);
  }

  lemma StillPresent(segments: seq<Segment>, prefix: string, checksums: Checksums)
    requires Manifest(checksums) && PathsPresent(segments, prefix)
    ensures PathsPresent(RewriteAll(segments, prefix, checksums), prefix)
  {
    hide Versioned, StringField, Rewrite, Manifest, RewriteAll;
    var rewritten := RewriteAll(segments, prefix, checksums);
    RewriteAllAt(segments, prefix, checksums, -1);
    forall i | 0 <= i < |rewritten| && Versioned(rewritten[i], prefix)
      ensures StringField(rewritten[i].body, FilePath).Some?
    {
      RewriteAllAt(segments, prefix, checksums, i);
      SegmentKept(segments[i], prefix, checksums);
    }
  }

  /** After a successful update the checker reports nothing exactly when every block was refreshable. */
  lemma UpdateThenCheck(lines: seq<string>, prefix: string, checksums: Checksums)
    requires Manifest(checksums) && Updatable(Parse(lines), prefix, checksums)
    ensures Current(Parse(Updated(lines, prefix, checksums)), prefix, checksums) <==> AllRefreshable(Parse(lines), prefix)
  {
    hide Manifest, Versioned, Rewrite, RewriteAll, Parse, Flatten, Refreshable, ShaRight, Paths, Matches, Insertable;
    var segments := Parse(lines);
    var rewritten := RewriteAll(segments, prefix, checksums);
    ReadAgain(lines, prefix, checksums);
    PathsKept(segments, prefix, checksums);
    StillPresent(segments, prefix, checksums);
    RewriteAllAt(segments, prefix, checksums, -1);
    forall i | 0 <= i < |segments|
      ensures Versioned(rewritten[i], prefix) <==> Versioned(segments[i], prefix)
      ensures Versioned(segments[i], prefix) ==> (ShaRight(rewritten[i], checksums) <==> Refreshable(segments[i].body))
    {
      RewriteAllAt(segments, prefix, checksums, i);
      SegmentKept(segments[i], prefix, checksums);
      if Versioned(segments[i], prefix) {
        BlockCurrent(segments, prefix, checksums, i);
      }
    }
  }

  lemma BlockUpdatedTwice(segments: seq<Segment>, prefix: string, checksums: Checksums, i: nat)
    requires Manifest(checksums) && Updatable(segments, prefix, checksums)
    requires i < |segments| && Versioned(segments[i], prefix)
    ensures var rewritten := Rewrite(segments[i], prefix, checksums);
            && Versioned(rewritten, prefix)
            && Has(rewritten.body, IsHexSha)
            && (Rewrite(rewritten, prefix, checksums) == rewritten <==> Settled(segments[i].body))
  {
    BlockUpdated(segments, prefix, checksums, i);
    SegmentKept(segments[i], prefix, checksums);
    hide Updatable, Manifest, StringField, WithSha, Settled, Versioned, PathOf, CutOf, Has;
    var checksum := checksums[PathOf(segments[i])];
    RewrittenAgain(segments[i].body, checksum);
    SecondRewriting(segments[i].body, checksum);
  }

  lemma StillUpdatable(segments: seq<Segment>, prefix: string, checksums: Checksums)
    requires Manifest(checksums) && Updatable(segments, prefix, checksums)
    ensures Updatable(RewriteAll(segments, prefix, checksums), prefix, checksums)
  {
    hide Manifest, Versioned, Rewrite, RewriteAll, PathsPresent, Paths, Matches, Has;
    PathsKept(segments, prefix, checksums);
    StillPresent(segments, prefix, checksums);
    var rewritten := RewriteAll(segments, prefix, checksums);
    RewriteAllAt(segments, prefix, checksums, -1);
    forall i | 0 <= i < |rewritten| && Versioned(rewritten[i], prefix)
      ensures Has(rewritten[i].body, IsHexSha)
    {
      RewriteAllAt(segments, prefix, checksums, i);
      SegmentKept(segments[i], prefix, checksums);
      BlockUpdatedTwice(segments, prefix, checksums, i);
    }
  }

  lemma SecondSegments(segments: seq<Segment>, prefix: string, checksums: Checksums)
    requires Manifest(checksums) && Updatable(segments, prefix, checksums)
    ensures var rewritten := RewriteAll(segments, prefix, checksums);
            RewriteAll(rewritten, prefix, checksums) == rewritten <==> AllSettled(segments, prefix)
  {
    hide Manifest, Versioned, Rewrite, RewriteAll, Updatable, Settled, Has;
    var rewritten := RewriteAll(segments, prefix, checksums);
    var again := RewriteAll(rewritten, prefix, checksums);
    RewriteAllAt(segments, prefix, checksums, -1);
    RewriteAllAt(rewritten, prefix, checksums, -1);
    forall i | 0 <= i < |segments|
      ensures again[i] == rewritten[i] <==> (Versioned(segments[i], prefix) ==> Settled(segments[i].body))
    {
      RewriteAllAt(segments, prefix, checksums, i);
      RewriteAllAt(rewritten, prefix, checksums, i);
      SegmentKept(segments[i], prefix, checksums);
      if Versioned(segments[i], prefix) {
        BlockUpdatedTwice(segments, prefix, checksums, i);
      } else {
        SegmentKept(rewritten[i], prefix, checksums);
      }
    }
  }

  /**
   A second update also succeeds. It changes nothing exactly when every block was settled, and after it
   the text stays.
   */
  lemma SecondUpdate(lines: seq<string>, prefix: string, checksums: Checksums)
    requires Manifest(checksums) && Updatable(Parse(lines), prefix, checksums)
    ensures var once := Updated(lines, prefix, checksums);
            var twice := Updated(once, prefix, checksums);
            && Updatable(Parse(once), prefix, checksums)
            && (twice == once <==> AllSettled(Parse(lines), prefix))
            && Updated(twice, prefix, checksums) == twice
  {
    hide Manifest, Versioned, Rewrite, RewriteAll, Updatable, Parse, Flatten, AllSettled;
    var segments := Parse(lines);
    var rewritten := RewriteAll(segments, prefix, checksums);
    ReadAgain(lines, prefix, checksums);
    StillUpdatable(segments, prefix, checksums);
    SecondSegments(segments, prefix, checksums);
    ReadAgain(Flatten(rewritten), prefix, checksums);
    SecondSegments(rewritten, prefix, checksums);
    RewrittenIsSettled(segments, prefix, checksums);
  }

  lemma RewrittenIsSettled(segments: seq<Segment>, prefix: string, checksums: Checksums)
    requires Manifest(checksums) && Updatable(segments, prefix, checksums)
    ensures AllSettled(RewriteAll(segments, prefix, checksums), prefix)
  {
    hide Manifest, Versioned, Rewrite, RewriteAll, Updatable, Has;
    var rewritten := RewriteAll(segments, prefix, checksums);
    RewriteAllAt(segments, prefix, checksums, -1);
    forall i | 0 <= i < |rewritten| && Versioned(rewritten[i], prefix) ensures Settled(rewritten[i].body) {
      RewriteAllAt(segments, prefix, checksums, i);
      SegmentKept(segments[i], prefix, checksums);
      BlockUpdatedTwice(segments, prefix, checksums, i);
    }
  }

  /**
   Equal outside the version's blocks. Inside them, the same name, path and closing line; and of the lines that
   are not blank, the same ones in the same order but for one checksum line, put in or replaced.
   */
  ghost predicate SameButSha(before: Segment, after: Segment, prefix: string)
  {
    if Versioned(before, prefix) then
      && after.Block? && after.close == before.close
      && StringField(after.body, Name) == StringField(before.body, Name)
      && StringField(after.body, FilePath) == StringField(before.body, FilePath)
      && (after == before || exists k :: OneShaSet(Texts(before.body), Texts(after.body), k))
    else after == before
  }

  lemma OneLineSet(segment: Segment, prefix: string, checksums: Checksums)
    requires Manifest(checksums)
    ensures var rewritten := Rewrite(segment, prefix, checksums);
            rewritten != segment ==>
              segment.Block? && rewritten.Block?
              && exists k :: OneShaSet(Texts(segment.body), Texts(rewritten.body), k)
  {
    hide WithSha, OneShaSet, Texts, StringField, Manifest, IsHex;
    if Rewrite(segment, prefix, checksums) != segment {
      ChecksumFits(checksums, PathOf(segment));
      OneShaIsSet(segment.body, checksums[PathOf(segment)]);
    }
  }

  /** An update changes only the version's blocks, and there nothing but the one checksum line and blank lines. */
  lemma OutsideUnchanged(lines: seq<string>, prefix: string, checksums: Checksums)
    requires Manifest(checksums)
    ensures var before, after := Parse(lines), Parse(Updated(lines, prefix, checksums));
            && |after| == |before|
            && forall i {:trigger before[i]} :: 0 <= i < |before| ==> SameButSha(before[i], after[i], prefix)
  {
    hide Manifest, Versioned, Rewrite, RewriteAll, Parse, Flatten, StringField, Has, OneShaSet, Texts;
    var segments := Parse(lines);
    var rewritten := RewriteAll(segments, prefix, checksums);
    ReadAgain(lines, prefix, checksums);
    RewriteAllAt(segments, prefix, checksums, -1);
    forall i | 0 <= i < |segments| ensures SameButSha(segments[i], rewritten[i], prefix) {
      RewriteAllAt(segments, prefix, checksums, i);
      SegmentKept(segments[i], prefix, checksums);
      OneLineSet(segments[i], prefix, checksums);
    }
  }

  // ---------------------------------------------------------------------------------------------
  // Neither condition comes for free
  // ---------------------------------------------------------------------------------------------

  lemma OneParsed(body: seq<string>)
    requires !Has(body, IsClose)
    ensures Parse(Lines(Block(body, ")"))) == [Block(body, ")")]
  {
    NothingParsed();
    hide Lines, Has, Parse;
    BlockPrepended(body, ")", []);
    assert Lines(Block(body, ")")) + [] == Lines(Block(body, ")"));
  }

  /** A text of one block, for one file. */
  lemma OneBlock(body: seq<string>, prefix: string, file: string, checksum: string)
    requires StringField(body, Name) == Some(prefix) && StringField(body, FilePath) == Some(file)
    requires Has(body, IsTightPath)
    ensures Updatable([Block(body, ")")], prefix, map[file := checksum])
  {
    hide StringField, Has;
    assert Paths([Block(body, ")")], prefix) == [file];
  }

  lemma NothingParsed()
    ensures Parse([]) == []
  {
  }

  lemma LineIs(key: Key, value: string, test: Test)
    requires value != "" && '"' !in value
    ensures Passes(FieldLine(key, "", value), test) <==>
              match test
              case IsField(k) => k == key
              case IsHexSha => key == Sha && IsHex(value)
              case IsTightPath => key == FilePath
              case IsText => true
              case IsClose => false
  {
    var line := FieldLine(key, "", value);
    FieldReadsBack(key, "", value);
    FieldShape(line, key);
    hide FieldLine, ReadField, IsHex, Blank;
    match test
    case IsField(k) => if ReadField(line, k).Some? { OneField(line, k, key); }
    case IsHexSha => if ReadField(line, Sha).Some? { OneField(line, Sha, key); }
    case IsTightPath => if ReadField(line, FilePath).Some? { OneField(line, FilePath, key); }
    case _ =>
  }

  /** A block whose checksum is not hexadecimal and comes before its path. */
  function Stale(prefix: string): seq<string>
  {
    [FieldLine(Name, "", prefix), FieldLine(Sha, "", "X"), FieldLine(FilePath, "", "f")]
  }

  /** A block without a checksum and with a blank line behind its path. */
  function Loose(prefix: string): seq<string>
  {
    [FieldLine(Name, "", prefix), FieldLine(FilePath, "", "f"), ""]
  }

  lemma FirstOfThree(a: string, b: string, c: string, test: Test)
    ensures First([a, b, c], test)
         == if Passes(a, test) then 0 else if Passes(b, test) then 1 else if Passes(c, test) then 2 else 3
  {
    hide Passes;
    assert [a, b, c] == [a] + [b, c] && [b, c] == [b] + [c];
    FirstConcat([a], [b, c], test);
    FirstConcat([b], [c], test);
  }

  lemma StaleIs(prefix: string, test: Test)
    requires prefix != "" && '"' !in prefix
    ensures First(Stale(prefix), test)
         == match test
            case IsField(key) => (match key case Name => 0 case Sha => 1 case FilePath => 2)
            case IsTightPath => 2
            case IsText => 0
            case _ => 3
  {
    LineIs(Name, prefix, test);
    LineIs(Sha, "X", test);
    LineIs(FilePath, "f", test);
    assert !IsHex("X") by { assert "X"[0] == 'X'; }
    hide Passes, FieldLine;
    FirstOfThree(FieldLine(Name, "", prefix), FieldLine(Sha, "", "X"), FieldLine(FilePath, "", "f"), test);
  }

  lemma LooseIs(prefix: string, test: Test)
    requires prefix != "" && '"' !in prefix
    ensures First(Loose(prefix), test)
         == match test
            case IsField(key) => (match key case Name => 0 case Sha => 3 case FilePath => 1)
            case IsTightPath => 1
            case IsText => 0
            case _ => 3
  {
    LineIs(Name, prefix, test);
    LineIs(FilePath, "f", test);
    BlankIsNothing("", test);
    hide Passes, FieldLine;
    FirstOfThree(FieldLine(Name, "", prefix), FieldLine(FilePath, "", "f"), "", test);
  }

  lemma StaleBlock(prefix: string)
    requires prefix != "" && '"' !in prefix
    ensures var body := Stale(prefix);
            && !Has(body, IsClose) && Has(body, IsTightPath) && !Refreshable(body)
            && StringField(body, Name) == Some(prefix) && StringField(body, FilePath) == Some("f")
  {
    FieldReadsBack(Name, "", prefix);
    FieldReadsBack(FilePath, "", "f");
    hide First, FieldLine, ReadField;
    StaleIs(prefix, IsClose);
    StaleIs(prefix, IsField(Name));
    StaleIs(prefix, IsField(FilePath));
    StaleIs(prefix, IsField(Sha));
    StaleIs(prefix, IsHexSha);
    StaleIs(prefix, IsTightPath);
  }

  lemma LooseBlock(prefix: string)
    requires prefix != "" && '"' !in prefix
    ensures var body := Loose(prefix);
            && !Has(body, IsClose) && Has(body, IsTightPath) && !Settled(body)
            && StringField(body, Name) == Some(prefix) && StringField(body, FilePath) == Some("f")
  {
    FieldReadsBack(Name, "", prefix);
    FieldReadsBack(FilePath, "", "f");
    hide First, FieldLine, ReadField;
    LooseIs(prefix, IsClose);
    LooseIs(prefix, IsField(Name));
    LooseIs(prefix, IsField(FilePath));
    LooseIs(prefix, IsHexSha);
    LooseIs(prefix, IsTightPath);
  }

  /** A checksum that is not hexadecimal stays in front of the one put in, and the checker still reports it. */
  lemma StaleChecksumStays(prefix: string, checksum: string)
    requires prefix != "" && '"' !in prefix && IsHex(checksum) && |checksum| == 64
    ensures var lines, checksums := Lines(Block(Stale(prefix), ")")), map["f" := checksum];
            && Manifest(checksums) && Updatable(Parse(lines), prefix, checksums)
            && !Current(Parse(Updated(lines, prefix, checksums)), prefix, checksums)
  {
    hide Stale, Has, StringField, Refreshable, Lines, Parse, Updatable, Current, Updated, IsHex;
    var body := Stale(prefix);
    StaleBlock(prefix);
    OneParsed(body);
    OneBlock(body, prefix, "f", checksum);
    UpdateThenCheck(Lines(Block(body, ")")), prefix, map["f" := checksum]);
    assert Versioned([Block(body, ")")][0], prefix);
  }

  /** A blank line behind the path survives the first update and not the second. */
  lemma BlankLineGoesSecond(prefix: string, checksum: string)
    requires prefix != "" && '"' !in prefix && IsHex(checksum) && |checksum| == 64
    ensures var lines, checksums := Lines(Block(Loose(prefix), ")")), map["f" := checksum];
            && Manifest(checksums) && Updatable(Parse(lines), prefix, checksums)
            && var once := Updated(lines, prefix, checksums);
               Updated(once, prefix, checksums) != once
  {
    hide Loose, Has, StringField, Settled, Lines, Parse, Updatable, Updated, IsHex;
    var body := Loose(prefix);
    LooseBlock(prefix);
    OneParsed(body);
    OneBlock(body, prefix, "f", checksum);
    SecondUpdate(Lines(Block(body, ")")), prefix, map["f" := checksum]);
    assert Versioned([Block(body, ")")][0], prefix);
  }
}
