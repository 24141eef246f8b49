/**
 Counting accepted lines in a git-style diff, proved against a printer of such diffs. A diff arrives as its
 lines; a fingerprint is kept as the path and the line it is computed from. Which characters are whitespace
 and which are alphanumeric are parameters.
 */
module UnifiedDiff {
  import opened Common
  import opened Words

  datatype Classes = Classes(space: char -> bool, alphanumeric: char -> bool)

  // ---------------------------------------------------------------------------------------------
  // Paths and effective lines
  // ---------------------------------------------------------------------------------------------

  function TrimStart(s: string, space: char -> bool): string
  {
    if s != "" && space(s[0]) then TrimStart(s[1..], space) else s
  }

  function TrimEnd(s: string, space: char -> bool): string
  {
    if s != "" && space(s[|s| - 1]) then TrimEnd(s[..|s| - 1], space) else s
  }

  function NoFile(): string { "/dev/null" }

  /** The path a `+++` line names, without its `b/` or `a/`; none for the missing file. */
  function NormalizePath(text: string, classes: Classes): Option<string>
  {
    var path := TrimEnd(TrimStart(text, classes.space), classes.space);
    if path == NoFile() then None
    else if "b/" <= path || "a/" <= path then Some(path[2..])
    else Some(path)
  }

  /** The bytes of a character in UTF-8. */
  function Bytes(c: char): nat
  {
    if c < '\U{80}' then 1 else if c < '\U{800}' then 2 else if c < '\U{10000}' then 3 else 4
  }

  function ByteLength(s: string): nat
  {
    if s == "" then 0 else Bytes(s[0]) + ByteLength(s[1..])
  }

  /** An added line with its words spaced singly; none when it is too short or says nothing. */
  function NormalizeLine(text: string, classes: Classes): Option<string>
  {
    var normalized := Joined(WordsOf(text, classes.space));
    if ByteLength(normalized) <= 3 then None
    else if forall i :: 0 <= i < |normalized| ==> !classes.alphanumeric(normalized[i]) && normalized[i] != '_' then None
    else Some(normalized)
  }

  /** Normalising again changes nothing, and only the words matter. */
  lemma NormalizedIsStable(a: string, b: string, classes: Classes)
    requires classes.space(' ')
    ensures NormalizeLine(a, classes).Some? ==>
              NormalizeLine(NormalizeLine(a, classes).value, classes) == NormalizeLine(a, classes)
    ensures WordsOf(a, classes.space) == WordsOf(b, classes.space) ==>
              NormalizeLine(a, classes) == NormalizeLine(b, classes)
  {
    SpacingIsIdempotent(a, classes.space);
  }

  /**
   What normalising gives: the one text with the same words and only single spaces between them, if it has more than
   three bytes and says something.
   */
  lemma NormalizeMeans(text: string, normalized: string, classes: Classes)
    requires classes.space(' ')
    ensures NormalizeLine(text, classes) == Some(normalized) <==>
              && WordsOf(normalized, classes.space) == WordsOf(text, classes.space) && Spaced(normalized, classes.space)
              && ByteLength(normalized) > 3
              && exists i :: 0 <= i < |normalized| && (classes.alphanumeric(normalized[i]) || normalized[i] == '_')
  {
    hide ByteLength, WordsOf, Joined, Spaced;
    var words := WordsOf(text, classes.space);
    AreWords(text, classes.space);
    JoinedSplits(words, classes.space);
    JoinedIsSpaced(words, classes.space);
    if Spaced(normalized, classes.space) {
      SpacedIsJoined(normalized, classes.space);
    }
  }

  /** In ASCII, bytes are characters. */
  lemma {:induction false} PlainLength(s: string)
    requires forall i :: 0 <= i < |s| ==> s[i] as int < 128
    ensures ByteLength(s) == |s|
  {
    if s != "" {
      PlainLength(s[1..]);
    }
  }

  lemma {:induction false} TrimsBlank(s: string, pad: string, space: char -> bool)
    requires forall i :: 0 <= i < |pad| ==> space(pad[i])
    ensures TrimEnd(s + pad, space) == TrimEnd(s, space)
    decreases |pad|
  {
    if pad == "" {
      assert s + pad == s;
    } else {
      assert (s + pad)[..|s + pad| - 1] == s + pad[..|pad| - 1];
      TrimsBlank(s, pad[..|pad| - 1], space);
    }
  }

  lemma {:induction false} TrimsBehind(front: string, s: string, space: char -> bool)
    requires front != "" && !space(front[|front| - 1])
    ensures TrimEnd(front + s, space) == front + TrimEnd(s, space)
    decreases |s|
  {
    if s == "" {
      assert front + s == front && front + TrimEnd(s, space) == front;
    } else {
      assert (front + s)[..|front + s| - 1] == front + s[..|s| - 1];
      if space(s[|s| - 1]) {
        TrimsBehind(front, s[..|s| - 1], space);
      }
    }
  }

  /** A path printed as git prints it is read back, less whitespace at its end. */
  lemma PathReadsBack(path: string, pad: string, classes: Classes)
    requires !classes.space('b') && !classes.space('/') && forall i :: 0 <= i < |pad| ==> classes.space(pad[i])
    ensures NormalizePath("b/" + path + pad, classes) == Some(TrimEnd(path, classes.space))
  {
    var text := "b/" + path + pad;
    assert TrimStart(text, classes.space) == text;
    TrimsBlank("b/" + path, pad, classes.space);
    TrimsBehind("b/", path, classes.space);
    var trimmed := "b/" + TrimEnd(path, classes.space);
    assert trimmed[0] == 'b' && NoFile()[0] == '/';
    assert trimmed[2..] == TrimEnd(path, classes.space);
  }

  ghost predicate AllSpace(s: string, space: char -> bool)
  {
    forall i :: 0 <= i < |s| ==> space(s[i])
  }

  /** The text is this one with whitespace around it, and this one has none at its ends. */
  ghost predicate Trims(text: string, front: string, core: string, back: string, space: char -> bool)
  {
    && text == front + core + back && AllSpace(front, space) && AllSpace(back, space)
    && (core != "" ==> !space(core[0]) && !space(core[|core| - 1]))
  }

  lemma SpaceInFront(c: char, s: string, n: nat, space: char -> bool)
    requires space(c) && n <= |s| && AllSpace(s[..n], space)
    ensures AllSpace(([c] + s)[..n + 1], space)
  {
    assert ([c] + s)[..n + 1] == [c] + s[..n];
  }

  lemma {:induction false} StartTrimmed(s: string, space: char -> bool)
    ensures var t := TrimStart(s, space);
            |t| <= |s| && s == s[..|s| - |t|] + t && AllSpace(s[..|s| - |t|], space) && (t != "" ==> !space(t[0]))
  {
    if s != "" && space(s[0]) {
      hide AllSpace;
      var rest, t := s[1..], TrimStart(s[1..], space);
      StartTrimmed(rest, space);
      SpaceInFront(s[0], rest, |rest| - |t|, space);
      assert s == [s[0]] + rest;
      assert s[..|s| - |t|] + t == [s[0]] + (rest[..|rest| - |t|] + t);
    }
  }

  lemma SpaceBehind(s: string, c: char, n: nat, space: char -> bool)
    requires space(c) && n <= |s| && AllSpace(s[n..], space)
    ensures AllSpace((s + [c])[n..], space)
  {
    assert (s + [c])[n..] == s[n..] + [c];
  }

  lemma {:induction false} EndTrimmed(s: string, space: char -> bool)
    ensures TrimEnd(s, space) <= s && AllSpace(s[|TrimEnd(s, space)|..], space)
    ensures TrimEnd(s, space) != "" ==> !space(TrimEnd(s, space)[|TrimEnd(s, space)| - 1])
  {
    if s != "" && space(s[|s| - 1]) {
      hide AllSpace;
      var fewer := s[..|s| - 1];
      EndTrimmed(fewer, space);
      SpaceBehind(fewer, s[|s| - 1], |TrimEnd(fewer, space)|, space);
      assert s == fewer + [s[|s| - 1]];
    }
  }

  /** What a path is read as, for every text: what stands between its whitespace, less one `b/` or `a/`. */
  lemma PathMeans(text: string, classes: Classes) returns (front: string, core: string, back: string)
    ensures Trims(text, front, core, back, classes.space)
    ensures core == "/dev/null" ==> NormalizePath(text, classes) == None
    ensures forall path :: core == "b/" + path || core == "a/" + path ==> NormalizePath(text, classes) == Some(path)
    ensures core != "/dev/null" && !("b/" <= core) && !("a/" <= core) ==> NormalizePath(text, classes) == Some(core)
  {
    hide TrimStart, TrimEnd;
    var started := TrimStart(text, classes.space);
    StartTrimmed(text, classes.space);
    EndTrimmed(started, classes.space);
    core := TrimEnd(started, classes.space);
    front, back := text[..|text| - |started|], started[|core|..];
    assert text == front + core + back;
    forall path | core == "b/" + path || core == "a/" + path ensures NormalizePath(text, classes) == Some(path) {
      assert core[0] != '/' && NoFile()[0] == '/';
      assert core[2..] == path;
    }
  }

  // ---------------------------------------------------------------------------------------------
  // The counter
  // ---------------------------------------------------------------------------------------------

  function DiffMark(): string { "diff --git " }
  function HunkMark(): string { "@@ " }
  function OldMark(): string { "--- " }
  function NewMark(): string { "+++ " }

  datatype Effective = Effective(path: string, line: string)

  datatype Summary = Summary(added: int, deleted: int, lines: seq<Effective>)

  const ZERO := Summary(0, 0, [])

  /** What the counter remembers from line to line, apart from its counts. */
  datatype Mode = Mode(path: Option<string>, inHunk: bool)

  const START := Mode(None, false)

  function Plus(a: Summary, b: Summary): Summary
  {
    Summary(a.added + b.added, a.deleted + b.deleted, a.lines + b.lines)
  }

  lemma PlusZero(a: Summary)
    ensures Plus(a, ZERO) == a && Plus(ZERO, a) == a
  {
    assert a.lines + [] == a.lines && [] + a.lines == a.lines;
  }

  lemma PlusAssociates(a: Summary, b: Summary, c: Summary)
    ensures Plus(Plus(a, b), c) == Plus(a, Plus(b, c))
  {
    assert (a.lines + b.lines) + c.lines == a.lines + (b.lines + c.lines);
  }

  function NextMode(mode: Mode, line: string, classes: Classes): Mode
  {
    if DiffMark() <= line then START
    else if HunkMark() <= line then mode.(inHunk := true)
    else if !mode.inHunk && NewMark() <= line then mode.(path := NormalizePath(line[|NewMark()|..], classes))
    else mode
  }

  function Gain(mode: Mode, line: string, classes: Classes): Summary
  {
    if DiffMark() <= line || HunkMark() <= line || (!mode.inHunk && (NewMark() <= line || OldMark() <= line)) then ZERO
    else if "+" <= line then
      var normalized := NormalizeLine(line[1..], classes);
      Summary(1, 0, if mode.path.Some? && normalized.Some? then [Effective(mode.path.value, normalized.value)] else [])
    else if "-" <= line then Summary(0, 1, [])
    else ZERO
  }

  function ModeAfter(mode: Mode, lines: seq<string>, classes: Classes): Mode
  {
    if lines == [] then mode
    else NextMode(ModeAfter(mode, lines[..|lines| - 1], classes), lines[|lines| - 1], classes)
  }

  function Total(mode: Mode, lines: seq<string>, classes: Classes): Summary
  {
    if lines == [] then ZERO
    else
      var fewer := lines[..|lines| - 1];
      Plus(Total(mode, fewer, classes), Gain(ModeAfter(mode, fewer, classes), lines[|lines| - 1], classes))
  }

  lemma NothingCounted(mode: Mode, classes: Classes)
    ensures ModeAfter(mode, [], classes) == mode && Total(mode, [], classes) == ZERO
  {
  }

  lemma TotalNext(mode: Mode, lines: seq<string>, i: nat, classes: Classes)
    requires i < |lines|
    ensures ModeAfter(mode, lines[..i + 1], classes) == NextMode(ModeAfter(mode, lines[..i], classes), lines[i], classes)
    ensures Total(mode, lines[..i + 1], classes)
         == Plus(Total(mode, lines[..i], classes), Gain(ModeAfter(mode, lines[..i], classes), lines[i], classes))
  {
    hide NextMode, Gain, Plus;
    assert lines[..i + 1][..i] == lines[..i];
  }

  // ---------------------------------------------------------------------------------------------
  // What is counted, said of the lines themselves
  // ---------------------------------------------------------------------------------------------

  lemma MarksAre()
    ensures DiffMark() == "diff --git " && HunkMark() == "@@ " && OldMark() == "--- " && NewMark() == "+++ "
    ensures NoFile() == "/dev/null"
  {
  }

  /** A hunk was begun before line `i`, and no file since. */
  ghost predicate InHunkAt(lines: seq<string>, i: int)
    requires 0 <= i <= |lines|
  {
    exists j :: 0 <= j < i && HunkMark() <= lines[j] && forall k :: j < k < i ==> !(DiffMark() <= lines[k])
  }

  /** Line `i` is an added line, even if it looks like a file's name. */
  ghost predicate AddedAt(lines: seq<string>, i: int)
    requires 0 <= i < |lines|
  {
    "+" <= lines[i] && (InHunkAt(lines, i) || !(NewMark() <= lines[i]))
  }

  ghost predicate DeletedAt(lines: seq<string>, i: int)
    requires 0 <= i < |lines|
  {
    "-" <= lines[i] && (InHunkAt(lines, i) || !(OldMark() <= lines[i]))
  }

  /** Line `i` names the file that follows. */
  ghost predicate NamesAt(lines: seq<string>, i: int)
    requires 0 <= i < |lines|
  {
    NewMark() <= lines[i] && !InHunkAt(lines, i)
  }

  /** The last name before line `i`, with no new file begun since, is this path. */
  ghost predicate UnderPath(lines: seq<string>, i: int, path: string, classes: Classes)
    requires 0 <= i <= |lines|
  {
    exists j ::
      && 0 <= j < i && NamesAt(lines, j) && NormalizePath(lines[j][|NewMark()|..], classes) == Some(path)
      && forall k :: j < k < i ==> !(DiffMark() <= lines[k]) && !NamesAt(lines, k)
  }

  ghost predicate EffectiveAt(lines: seq<string>, i: int, effective: Effective, classes: Classes)
    requires 0 <= i < |lines|
  {
    && AddedAt(lines, i) && UnderPath(lines, i, effective.path, classes)
    && NormalizeLine(lines[i][1..], classes) == Some(effective.line)
  }

  ghost predicate SomeEffectiveAt(lines: seq<string>, i: int, classes: Classes)
    requires 0 <= i < |lines|
  {
    exists effective :: EffectiveAt(lines, i, effective, classes)
  }

  ghost function AddedTo(lines: seq<string>, n: nat): set<int>
    requires n <= |lines|
  {
    set i | 0 <= i < n && AddedAt(lines, i)
  }

  ghost function DeletedTo(lines: seq<string>, n: nat): set<int>
    requires n <= |lines|
  {
    set i | 0 <= i < n && DeletedAt(lines, i)
  }

  /** The effective lines among the first `n`, each once, in order. */
  ghost predicate Gathers(lines: seq<string>, n: nat, effective: seq<Effective>, at: seq<int>, classes: Classes)
    requires n <= |lines|
  {
    && Places(at, n) && |at| == |effective|
    && (forall i {:trigger SomeEffectiveAt(lines, i, classes)} :: 0 <= i < n ==>
          (i in at <==> SomeEffectiveAt(lines, i, classes)))
    && (forall j :: 0 <= j < |at| ==> EffectiveAt(lines, at[j], effective[j], classes))
  }

  lemma MarksBegin(line: string)
    ensures HunkMark() <= line ==> !(DiffMark() <= line) && !("+" <= line) && !("-" <= line)
    ensures DiffMark() <= line ==> !("+" <= line) && !("-" <= line) && !(NewMark() <= line) && !(OldMark() <= line)
    ensures NewMark() <= line ==> "+" <= line && !(HunkMark() <= line)
    ensures OldMark() <= line ==> "-" <= line
    ensures "+" <= line ==> !("-" <= line)
  {
    assert HunkMark()[0] == '@' && DiffMark()[0] == 'd' && NewMark()[0] == '+' && OldMark()[0] == '-';
  }

  lemma HunkNext(lines: seq<string>, i: nat)
    requires i < |lines|
    ensures InHunkAt(lines, i + 1) <==> HunkMark() <= lines[i] || (InHunkAt(lines, i) && !(DiffMark() <= lines[i]))
  {
    hide HunkMark, DiffMark;
    if j :| 0 <= j < i && HunkMark() <= lines[j] && forall k :: j < k < i ==> !(DiffMark() <= lines[k]) {
      if !(DiffMark() <= lines[i]) {
        assert HunkMark() <= lines[j];
        assert InHunkAt(lines, i + 1);
      }
    }
  }

  lemma PathNext(lines: seq<string>, i: nat, path: string, classes: Classes)
    requires i < |lines|
    ensures UnderPath(lines, i + 1, path, classes)
       <==> if NamesAt(lines, i) then NormalizePath(lines[i][|NewMark()|..], classes) == Some(path)
            else UnderPath(lines, i, path, classes) && !(DiffMark() <= lines[i])
  {
    hide HunkMark, DiffMark, NewMark, InHunkAt, NormalizePath;
    if UnderPath(lines, i, path, classes) && !(DiffMark() <= lines[i]) && !NamesAt(lines, i) {
      var j :| && 0 <= j < i && NamesAt(lines, j) && NormalizePath(lines[j][|NewMark()|..], classes) == Some(path)
               && forall k :: j < k < i ==> !(DiffMark() <= lines[k]) && !NamesAt(lines, k);
      assert UnderPath(lines, i + 1, path, classes);
    }
    if NamesAt(lines, i) && NormalizePath(lines[i][|NewMark()|..], classes) == Some(path) {
      assert UnderPath(lines, i + 1, path, classes);
    }
  }

  /** What the counter remembers is what the lines before say. */
  lemma {:induction false} ModeIs(lines: seq<string>, i: nat, path: string, classes: Classes)
    requires i <= |lines|
    ensures var mode := ModeAfter(START, lines[..i], classes);
            && (mode.inHunk <==> InHunkAt(lines, i))
            && (mode.path == Some(path) <==> UnderPath(lines, i, path, classes))
  {
    hide NormalizePath, DiffMark, HunkMark, NewMark, UnderPath, InHunkAt;
    if i == 0 {
      NothingRemembered(lines, path, classes);
    } else {
      ModeIs(lines, i - 1, path, classes);
      TotalNext(START, lines, i - 1, classes);
      HunkNext(lines, i - 1);
      PathNext(lines, i - 1, path, classes);
      MarksBegin(lines[i - 1]);
    }
  }

  lemma NothingRemembered(lines: seq<string>, path: string, classes: Classes)
    ensures !InHunkAt(lines, 0) && !UnderPath(lines, 0, path, classes)
    ensures ModeAfter(START, lines[..0], classes) == START
  {
  }

  lemma GainIs(lines: seq<string>, i: nat, classes: Classes)
    requires i < |lines|
    ensures var gain := Gain(ModeAfter(START, lines[..i], classes), lines[i], classes);
            && gain.added == (if AddedAt(lines, i) then 1 else 0)
            && gain.deleted == (if DeletedAt(lines, i) then 1 else 0)
            && |gain.lines| <= 1
            && (gain.lines != [] <==> SomeEffectiveAt(lines, i, classes))
            && (gain.lines != [] ==> EffectiveAt(lines, i, gain.lines[0], classes))
  {
    hide NormalizePath, NormalizeLine, DiffMark, HunkMark, NewMark, OldMark, UnderPath, InHunkAt, ModeAfter;
    MarksBegin(lines[i]);
    ModeIs(lines, i, "", classes);
    forall path ensures ModeAfter(START, lines[..i], classes).path == Some(path) <==> UnderPath(lines, i, path, classes) {
      ModeIs(lines, i, path, classes);
    }
    var gain := Gain(ModeAfter(START, lines[..i], classes), lines[i], classes);
    if gain.lines != [] {
      assert EffectiveAt(lines, i, gain.lines[0], classes);
    }
  }

  lemma GathersSkip(lines: seq<string>, n: nat, effective: seq<Effective>, at: seq<int>, classes: Classes)
    requires n < |lines| && Gathers(lines, n, effective, at, classes) && !SomeEffectiveAt(lines, n, classes)
    ensures Gathers(lines, n + 1, effective, at, classes)
  {
    hide SomeEffectiveAt, EffectiveAt;
  }

  lemma GathersTake(lines: seq<string>, n: nat, effective: seq<Effective>, at: seq<int>, next: Effective,
                    classes: Classes)
    requires n < |lines| && Gathers(lines, n, effective, at, classes) && SomeEffectiveAt(lines, n, classes)
    requires EffectiveAt(lines, n, next, classes)
    ensures Gathers(lines, n + 1, effective + [next], at + [n], classes)
  {
    hide SomeEffectiveAt, EffectiveAt;
    forall i | 0 <= i < n + 1 ensures i in at + [n] <==> SomeEffectiveAt(lines, i, classes) {
      InAppended(at, n, i);
    }
  }

  lemma {:induction false} TotalIs(lines: seq<string>, n: nat, classes: Classes) returns (at: seq<int>)
    requires n <= |lines|
    ensures var total := Total(START, lines[..n], classes);
            && total.added == |AddedTo(lines, n)| && total.deleted == |DeletedTo(lines, n)|
            && Gathers(lines, n, total.lines, at, classes)
  {
    hide Gain, AddedAt, DeletedAt, SomeEffectiveAt, EffectiveAt, Gathers, ModeAfter, Total;
    if n == 0 {
      at := [];
      NothingGathered(lines, classes);
    } else {
      at := TotalIs(lines, n - 1, classes);
      TotalNext(START, lines, n - 1, classes);
      GainIs(lines, n - 1, classes);
      CountedNext(lines, n - 1);
      var before := Total(START, lines[..n - 1], classes);
      var gain := Gain(ModeAfter(START, lines[..n - 1], classes), lines[n - 1], classes);
      if gain.lines == [] {
        GathersSkip(lines, n - 1, before.lines, at, classes);
        assert before.lines + [] == before.lines;
      } else {
        GathersTake(lines, n - 1, before.lines, at, gain.lines[0], classes);
        assert gain.lines == [gain.lines[0]];
        at := at + [n - 1];
      }
    }
  }

  lemma NothingGathered(lines: seq<string>, classes: Classes)
    ensures Total(START, lines[..0], classes) == ZERO && Gathers(lines, 0, [], [], classes)
    ensures AddedTo(lines, 0) == {} && DeletedTo(lines, 0) == {}
  {
  }

  lemma CountedNext(lines: seq<string>, n: nat)
    requires n < |lines|
    ensures |AddedTo(lines, n + 1)| == |AddedTo(lines, n)| + if AddedAt(lines, n) then 1 else 0
    ensures |DeletedTo(lines, n + 1)| == |DeletedTo(lines, n)| + if DeletedAt(lines, n) then 1 else 0
  {
    hide AddedAt, DeletedAt;
    assert AddedTo(lines, n + 1) == if AddedAt(lines, n) then AddedTo(lines, n) + {n} else AddedTo(lines, n);
    assert DeletedTo(lines, n + 1) == if DeletedAt(lines, n) then DeletedTo(lines, n) + {n} else DeletedTo(lines, n);
  }

  /** The counter's loop: the added and the deleted lines are counted, and the effective ones gathered in order. */
  method CountLines(lines: seq<string>, classes: Classes) returns (summary: Summary)
    ensures summary == Total(START, lines, classes)
    ensures summary.added == |AddedTo(lines, |lines|)| && summary.deleted == |DeletedTo(lines, |lines|)|
    ensures exists at :: Gathers(lines, |lines|, summary.lines, at, classes)
  {
    hide Gathers, AddedTo, DeletedTo, NormalizePath, NormalizeLine, DiffMark, HunkMark, OldMark, NewMark, ModeAfter, Total;
    NothingCounted(START, classes);
    assert lines[..0] == [];
    var path: Option<string>, inHunk, added, deleted, effective: seq<Effective> := None, false, 0, 0, [];
    for i := 0 to |lines|
      invariant Mode(path, inHunk) == ModeAfter(START, lines[..i], classes)
      invariant Summary(added, deleted, effective) == Total(START, lines[..i], classes)
    {
      TotalNext(START, lines, i, classes);
      var line := lines[i];
      if DiffMark() <= line {
        path, inHunk := None, false;
      } else if HunkMark() <= line {
        inHunk := true;
      } else if !inHunk && NewMark() <= line {
        path := NormalizePath(line[|NewMark()|..], classes);
      } else if !inHunk && OldMark() <= line {
      } else if "+" <= line {
        added := added + 1;
        var normalized := NormalizeLine(line[1..], classes);
        if path.Some? && normalized.Some? {
          effective := effective + [Effective(path.value, normalized.value)];
        }
      } else if "-" <= line {
        deleted := deleted + 1;
      }
    }
    assert lines[..|lines|] == lines;
    ghost var at := TotalIs(lines, |lines|, classes);
    return Summary(added, deleted, effective);
  }

  /** Counting is done piece by piece. */
  lemma {:induction false} TotalConcat(mode: Mode, a: seq<string>, b: seq<string>, classes: Classes)
    ensures ModeAfter(mode, a + b, classes) == ModeAfter(ModeAfter(mode, a, classes), b, classes)
    ensures Total(mode, a + b, classes)
         == Plus(Total(mode, a, classes), Total(ModeAfter(mode, a, classes), b, classes))
    decreases |b|
  {
    hide NextMode, Gain, Plus;
    if b == [] {
      assert a + b == a;
      PlusZero(Total(mode, a, classes));
    } else {
      var fewer, whole := b[..|b| - 1], a + b;
      assert whole[..|whole| - 1] == a + fewer && whole[|whole| - 1] == b[|b| - 1];
      TotalConcat(mode, a, fewer, classes);
      var middle := ModeAfter(mode, a, classes);
      PlusAssociates(Total(mode, a, classes), Total(middle, fewer, classes),
                     Gain(ModeAfter(middle, fewer, classes), b[|b| - 1], classes));
    }
  }

  /** A `diff --git ` line makes the counter forget what came before. */
  lemma {:induction false} StartsAfresh(mode: Mode, other: Mode, lines: seq<string>, classes: Classes)
    requires lines != [] && DiffMark() <= lines[0]
    ensures ModeAfter(mode, lines, classes) == ModeAfter(other, lines, classes)
    ensures Total(mode, lines, classes) == Total(other, lines, classes)
  {
    hide DiffMark;
    if |lines| > 1 {
      hide NextMode, Gain;
      StartsAfresh(mode, other, lines[..|lines| - 1], classes);
    }
  }

  /** Diffs put together add up. */
  lemma SummariesAdd(a: seq<string>, b: seq<string>, classes: Classes)
    requires b != [] && DiffMark() <= b[0]
    ensures Total(START, a + b, classes) == Plus(Total(START, a, classes), Total(START, b, classes))
  {
    hide Total, ModeAfter, DiffMark;
    TotalConcat(START, a, b, classes);
    StartsAfresh(ModeAfter(START, a, classes), START, b, classes);
  }

  // ---------------------------------------------------------------------------------------------
  // The printer
  // ---------------------------------------------------------------------------------------------

  datatype HunkLine = Context(text: string) | Added(text: string) | Deleted(text: string) | NoNewline

  datatype Hunk = Hunk(ranges: string, lines: seq<HunkLine>)

  /** One file of a diff; `pad` is the whitespace git may put behind a path. */
  datatype FileDiff = FileDiff(names: string, headers: seq<string>, source: string, target: Option<string>, pad: string,
                               hunks: seq<Hunk>)

  function PrintLine(line: HunkLine): string
  {
    match line
    case Context(text) => " " + text
    case Added(text) => "+" + text
    case Deleted(text) => "-" + text
    case NoNewline => "\\ No newline at end of file"
  }

  function PrintLines(lines: seq<HunkLine>): seq<string>
  {
    if lines == [] then [] else PrintLines(lines[..|lines| - 1]) + [PrintLine(lines[|lines| - 1])]
  }

  function PrintHunks(hunks: seq<Hunk>): seq<string>
  {
    if hunks == [] then []
    else
      var hunk := hunks[|hunks| - 1];
      PrintHunks(hunks[..|hunks| - 1]) + ([HunkMark() + hunk.ranges] + PrintLines(hunk.lines))
  }

  function PrintTarget(file: FileDiff): string
  {
    NewMark() + ((if file.target.Some? then "b/" + file.target.value else NoFile()) + file.pad)
  }

  function PrintFile(file: FileDiff): seq<string>
  {
    ([DiffMark() + file.names] + file.headers)
    + (if file.hunks == [] then [] else [OldMark() + file.source, PrintTarget(file)] + PrintHunks(file.hunks))
  }

  function PrintFiles(files: seq<FileDiff>): seq<string>
  {
    if files == [] then [] else PrintFiles(files[..|files| - 1]) + PrintFile(files[|files| - 1])
  }

  /** An extended header line: it begins neither a file nor a hunk, and not with a sign. */
  predicate PlainHeader(line: string)
  {
    !(DiffMark() <= line) && !(HunkMark() <= line) && (line != "" ==> line[0] != '+' && line[0] != '-')
  }

  ghost predicate GitStyle(file: FileDiff, classes: Classes)
  {
    && (forall i :: 0 <= i < |file.headers| ==> PlainHeader(file.headers[i]))
    && (forall i :: 0 <= i < |file.pad| ==> classes.space(file.pad[i]))
  }

  // ---------------------------------------------------------------------------------------------
  // What a diff says
  // ---------------------------------------------------------------------------------------------

  function LineSays(path: Option<string>, line: HunkLine, classes: Classes): Summary
  {
    match line
    case Added(text) =>
      var normalized := NormalizeLine(text, classes);
      Summary(1, 0, if path.Some? && normalized.Some? then [Effective(path.value, normalized.value)] else [])
    case Deleted(_) => Summary(0, 1, [])
    case Context(_) => ZERO
    case NoNewline => ZERO
  }

  function LinesSay(path: Option<string>, lines: seq<HunkLine>, classes: Classes): Summary
  {
    if lines == [] then ZERO
    else Plus(LinesSay(path, lines[..|lines| - 1], classes), LineSays(path, lines[|lines| - 1], classes))
  }

  function HunksSay(path: Option<string>, hunks: seq<Hunk>, classes: Classes): Summary
  {
    if hunks == [] then ZERO
    else Plus(HunksSay(path, hunks[..|hunks| - 1], classes), LinesSay(path, hunks[|hunks| - 1].lines, classes))
  }

  function TargetPath(file: FileDiff, classes: Classes): Option<string>
  {
    if file.target.Some? then Some(TrimEnd(file.target.value, classes.space)) else None
  }

  /** The added and the deleted lines of the files, and the effective ones with their paths, in order. */
  function FilesSay(files: seq<FileDiff>, classes: Classes): Summary
  {
    if files == [] then ZERO
    else
      var file := files[|files| - 1];
      Plus(FilesSay(files[..|files| - 1], classes), HunksSay(TargetPath(file, classes), file.hunks, classes))
  }

  lemma LineCounted(path: Option<string>, line: HunkLine, classes: Classes)
    ensures NextMode(Mode(path, true), PrintLine(line), classes) == Mode(path, true)
    ensures Gain(Mode(path, true), PrintLine(line), classes) == LineSays(path, line, classes)
  {
    var text := PrintLine(line);
    assert text[0] != 'd' && text[0] != '@';
    assert DiffMark()[0] == 'd' && HunkMark()[0] == '@';
    assert line.Added? || line.Deleted? ==> text[1..] == line.text;
  }

  lemma {:induction false} LinesCounted(path: Option<string>, lines: seq<HunkLine>, classes: Classes)
    ensures ModeAfter(Mode(path, true), PrintLines(lines), classes) == Mode(path, true)
    ensures Total(Mode(path, true), PrintLines(lines), classes) == LinesSay(path, lines, classes)
  {
    hide NextMode, Gain, PrintLine, LineSays;
    if lines != [] {
      var n := |lines| - 1;
      LinesCounted(path, lines[..n], classes);
      LineCounted(path, lines[n], classes);
      assert PrintLines(lines)[..|PrintLines(lines)| - 1] == PrintLines(lines[..n]);
    }
  }

  lemma HunkCounted(path: Option<string>, inHunk: bool, hunk: Hunk, classes: Classes)
    ensures var lines := [HunkMark() + hunk.ranges] + PrintLines(hunk.lines);
            && ModeAfter(Mode(path, inHunk), lines, classes) == Mode(path, true)
            && Total(Mode(path, inHunk), lines, classes) == LinesSay(path, hunk.lines, classes)
  {
    hide LinesSay, PrintLines, Plus;
    MarkCounted(Mode(path, inHunk), HunkMark() + hunk.ranges, classes);
    hide Total, ModeAfter, HunkMark;
    TotalConcat(Mode(path, inHunk), [HunkMark() + hunk.ranges], PrintLines(hunk.lines), classes);
    LinesCounted(path, hunk.lines, classes);
    PlusZero(LinesSay(path, hunk.lines, classes));
  }

  /** A line by itself. */
  lemma OneCounted(mode: Mode, line: string, classes: Classes)
    ensures ModeAfter(mode, [line], classes) == NextMode(mode, line, classes)
    ensures Total(mode, [line], classes) == Gain(mode, line, classes)
  {
    hide NextMode, Gain, Plus;
    assert [line][..0] == [];
    PlusZero(Gain(mode, line, classes));
  }

  lemma MarkCounted(mode: Mode, line: string, classes: Classes)
    requires HunkMark() <= line
    ensures ModeAfter(mode, [line], classes) == mode.(inHunk := true) && Total(mode, [line], classes) == ZERO
  {
    hide Total, ModeAfter;
    OneCounted(mode, line, classes);
    assert line[0] == '@' && DiffMark()[0] == 'd';
  }

  lemma {:induction false} HunksCounted(path: Option<string>, inHunk: bool, hunks: seq<Hunk>, classes: Classes)
    ensures ModeAfter(Mode(path, inHunk), PrintHunks(hunks), classes).path == path
    ensures Total(Mode(path, inHunk), PrintHunks(hunks), classes) == HunksSay(path, hunks, classes)
  {
    if hunks == [] {
      NothingCounted(Mode(path, inHunk), classes);
    } else {
      hide Total, ModeAfter, LinesSay, PrintLines, Plus, HunkMark;
      var n, mode := |hunks| - 1, Mode(path, inHunk);
      HunksCounted(path, inHunk, hunks[..n], classes);
      var before := PrintHunks(hunks[..n]);
      TotalConcat(mode, before, [HunkMark() + hunks[n].ranges] + PrintLines(hunks[n].lines), classes);
      HunkCounted(path, ModeAfter(mode, before, classes).inHunk, hunks[n], classes);
    }
  }

  lemma {:induction false} HeadersCounted(mode: Mode, headers: seq<string>, classes: Classes)
    requires !mode.inHunk && forall i :: 0 <= i < |headers| ==> PlainHeader(headers[i])
    ensures ModeAfter(mode, headers, classes) == mode && Total(mode, headers, classes) == ZERO
  {
    hide PlainHeader, NextMode, Gain, Plus;
    if headers != [] {
      HeadersCounted(mode, headers[..|headers| - 1], classes);
      HeaderCounted(mode, headers[|headers| - 1], classes);
      PlusZero(ZERO);
    }
  }

  lemma HeaderCounted(mode: Mode, line: string, classes: Classes)
    requires !mode.inHunk && PlainHeader(line)
    ensures NextMode(mode, line, classes) == mode && Gain(mode, line, classes) == ZERO
  {
    hide DiffMark, HunkMark;
    assert NewMark()[0] == '+' && OldMark()[0] == '-';
  }

  lemma SourceCounted(source: string, classes: Classes)
    ensures var line := OldMark() + source;
            NextMode(START, line, classes) == START && Gain(START, line, classes) == ZERO
  {
    hide NormalizePath;
    var line := OldMark() + source;
    assert line[0] == '-' && DiffMark()[0] == 'd' && HunkMark()[0] == '@' && NewMark()[0] == '+';
  }

  lemma TargetCounted(file: FileDiff, classes: Classes)
    requires GitStyle(file, classes) && !classes.space('b') && !classes.space('/') && !classes.space('l')
    ensures var line := PrintTarget(file);
            && NextMode(START, line, classes) == Mode(TargetPath(file, classes), false)
            && Gain(START, line, classes) == ZERO
  {
    hide NormalizePath, GitStyle;
    var text := (if file.target.Some? then "b/" + file.target.value else NoFile()) + file.pad;
    var line := NewMark() + text;
    TargetReadsBack(file, classes);
    assert line[0] == '+' && DiffMark()[0] == 'd' && HunkMark()[0] == '@';
    assert line[|NewMark()|..] == text;
  }

  lemma PathsCounted(file: FileDiff, classes: Classes)
    requires GitStyle(file, classes) && !classes.space('b') && !classes.space('/') && !classes.space('l')
    ensures var lines := [OldMark() + file.source, PrintTarget(file)];
            && ModeAfter(START, lines, classes) == Mode(TargetPath(file, classes), false)
            && Total(START, lines, classes) == ZERO
  {
    hide Total, ModeAfter, NextMode, Gain, OldMark, PrintTarget, TargetPath, GitStyle, Plus;
    var first, second := OldMark() + file.source, PrintTarget(file);
    OneCounted(START, first, classes);
    OneCounted(START, second, classes);
    SourceCounted(file.source, classes);
    TargetCounted(file, classes);
    assert [first, second] == [first] + [second];
    TotalConcat(START, [first], [second], classes);
    PlusZero(ZERO);
  }

  lemma TargetReadsBack(file: FileDiff, classes: Classes)
    requires GitStyle(file, classes) && !classes.space('b') && !classes.space('/') && !classes.space('l')
    ensures NormalizePath((if file.target.Some? then "b/" + file.target.value else NoFile()) + file.pad, classes)
         == TargetPath(file, classes)
  {
    if file.target.Some? {
      PathReadsBack(file.target.value, file.pad, classes);
    } else {
      var text := NoFile() + file.pad;
      assert TrimStart(text, classes.space) == text;
      TrimsBlank(NoFile(), file.pad, classes.space);
      assert TrimEnd(NoFile(), classes.space) == NoFile();
    }
  }

  lemma NamesCounted(mode: Mode, file: FileDiff, classes: Classes)
    requires GitStyle(file, classes)
    ensures var lines := [DiffMark() + file.names] + file.headers;
            ModeAfter(mode, lines, classes) == START && Total(mode, lines, classes) == ZERO
  {
    hide Total, ModeAfter, PlainHeader, Plus, DiffMark;
    var first := DiffMark() + file.names;
    OneCounted(mode, first, classes);
    TotalConcat(mode, [first], file.headers, classes);
    HeadersCounted(START, file.headers, classes);
    PlusZero(ZERO);
  }

  lemma NoHunks(path: Option<string>, classes: Classes)
    ensures HunksSay(path, [], classes) == ZERO
  {
  }

  lemma FileCounted(mode: Mode, file: FileDiff, classes: Classes)
    requires GitStyle(file, classes) && !classes.space('b') && !classes.space('/') && !classes.space('l')
    ensures Total(mode, PrintFile(file), classes) == HunksSay(TargetPath(file, classes), file.hunks, classes)
  {
    hide Total, ModeAfter, DiffMark, OldMark, PrintTarget, PrintHunks, HunksSay, TargetPath, GitStyle, Plus;
    NamesCounted(mode, file, classes);
    var names, paths, hunks := [DiffMark() + file.names] + file.headers, [OldMark() + file.source, PrintTarget(file)],
      PrintHunks(file.hunks);
    if file.hunks == [] {
      assert names + [] == names;
      NoHunks(TargetPath(file, classes), classes);
    } else {
      TotalConcat(mode, names, paths + hunks, classes);
      TotalConcat(START, paths, hunks, classes);
      PathsCounted(file, classes);
      HunksCounted(TargetPath(file, classes), false, file.hunks, classes);
      PlusZero(HunksSay(TargetPath(file, classes), file.hunks, classes));
    }
  }

  /** Counting a printed diff gives what the diff says, whatever the contents of its lines look like. */
  lemma {:induction false} PrintedIsCounted(files: seq<FileDiff>, classes: Classes)
    requires !classes.space('b') && !classes.space('/') && !classes.space('l')
    requires forall i :: 0 <= i < |files| ==> GitStyle(files[i], classes)
    ensures Total(START, PrintFiles(files), classes) == FilesSay(files, classes)
  {
    hide GitStyle, PrintFile, HunksSay, TargetPath, Plus;
    if files != [] {
      hide Total, ModeAfter;
      var n := |files| - 1;
      PrintedIsCounted(files[..n], classes);
      var before := PrintFiles(files[..n]);
      TotalConcat(START, before, PrintFile(files[n]), classes);
      FileCounted(ModeAfter(START, before, classes), files[n], classes);
    }
  }
}
