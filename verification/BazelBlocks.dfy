/** A block's fields, and the rewriting of its checksum. */
module BazelBlocks {
  import opened Common
  import opened BazelLines

  /** What a line may be looked for as. */
  datatype Test = IsField(key: Key) | IsHexSha | IsTightPath | IsText | IsClose

  predicate Passes(line: string, test: Test)
  {
    match test
    case IsField(key) => ReadField(line, key).Some?
    case IsHexSha => ReadField(line, Sha).Some? && IsHex(ReadField(line, Sha).value.value)
    case IsTightPath => ReadField(line, FilePath).Some? && ReadField(line, FilePath).value.trailing == ""
    case IsText => !Blank(line)
    case IsClose => line != "" && line[0] == ')'
  }

  /** The first line that passes, or the number of lines. */
  function First(lines: seq<string>, test: Test): (n: nat)
    ensures n <= |lines|
    ensures n < |lines| ==> Passes(lines[n], test)
    ensures forall i {:trigger Passes(lines[i], test)} :: 0 <= i < n ==> !Passes(lines[i], test)
  {
    if lines == [] || Passes(lines[0], test) then 0 else 1 + First(lines[1..], test)
  }

  /** Some line passes. */
  predicate Has(lines: seq<string>, test: Test)
  {
    First(lines, test) < |lines|
  }

  lemma {:induction false} FirstConcat(a: seq<string>, b: seq<string>, test: Test)
    ensures First(a + b, test) == if Has(a, test) then First(a, test) else |a| + First(b, test)
  {
    hide Passes;
    if a == [] {
      assert a + b == b;
    } else {
      assert (a + b)[1..] == a[1..] + b;
      FirstConcat(a[1..], b, test);
    }
  }

  lemma FirstIs(lines: seq<string>, test: Test, n: nat)
    requires n <= |lines| && (n < |lines| ==> Passes(lines[n], test))
    requires forall i :: 0 <= i < n ==> !Passes(lines[i], test)
    ensures First(lines, test) == n
  {
  }

  /** The value of the first such field. */
  function StringField(body: seq<string>, key: Key): Option<string>
  {
    var n := First(body, IsField(key));
    if n < |body| then Some(ReadField(body[n], key).value.value) else None
  }

  /** The blank lines just before line `i`. */
  function BlanksBefore(body: seq<string>, i: nat): (blanks: seq<string>)
    requires i <= |body|
    ensures forall k {:trigger Blank(blanks[k])} :: 0 <= k < |blanks| ==> Blank(blanks[k])
  {
    if i > 0 && Blank(body[i - 1]) then BlanksBefore(body, i - 1) + [body[i - 1]] else []
  }

  /** The lines without their leading blank ones. */
  function Trimmed(lines: seq<string>): seq<string>
  {
    lines[First(lines, IsText)..]
  }

  /** What the rewriter cuts a block into: what it keeps before, drops, puts in, and keeps after. */
  datatype Cut = Cut(before: seq<string>, dropped: seq<string>, blanks: seq<string>, indent: string, after: seq<string>)

  /**
   Where a checksum goes. A hexadecimal checksum line is replaced, along with the blank lines after it;
   otherwise a line is put after the first path line that ends in its comma, in the same indent and behind
   the same blank lines.
   */
  function CutOf(body: seq<string>): Cut
    requires Has(body, IsHexSha) || Has(body, IsTightPath)
  {
    var h, p := First(body, IsHexSha), First(body, IsTightPath);
    if h < |body| then
      var rest := body[h + 1..];
      Cut(body[..h], [body[h]] + rest[..First(rest, IsText)], [], ReadField(body[h], Sha).value.indent, Trimmed(rest))
    else Cut(body[..p + 1], [], BlanksBefore(body, p), ReadField(body[p], FilePath).value.indent, body[p + 1..])
  }

  /** The block with its checksum set. */
  function WithSha(body: seq<string>, checksum: string): Option<seq<string>>
  {
    if !Has(body, IsHexSha) && !Has(body, IsTightPath) then None
    else
      var c := CutOf(body);
      Some(c.before + (c.blanks + ([ShaLine(c.indent, checksum)] + c.after)))
  }

  /** The checksum that would be read first is one the rewriter replaces, or puts its own before. */
  predicate Refreshable(body: seq<string>)
  {
    var f := First(body, IsField(Sha));
    || f == |body|
    || f == First(body, IsHexSha)
    || (!Has(body, IsHexSha) && f > First(body, IsTightPath))
  }

  /** Rewriting leaves no blank line behind the checksum for the next rewriting to remove. */
  predicate Settled(body: seq<string>)
  {
    var p := First(body, IsTightPath);
    Has(body, IsHexSha) || p + 1 >= |body| || !Blank(body[p + 1])
  }

  // ---------------------------------------------------------------------------------------------
  // A rewritten block read again
  // ---------------------------------------------------------------------------------------------

  lemma StringFieldConcat(a: seq<string>, b: seq<string>, key: Key)
    ensures StringField(a + b, key) == if StringField(a, key).Some? then StringField(a, key) else StringField(b, key)
  {
    hide First, Passes;
    FirstConcat(a, b, IsField(key));
  }

  lemma NoneInBlank(lines: seq<string>, test: Test)
    requires forall i {:trigger Blank(lines[i])} :: 0 <= i < |lines| ==> Blank(lines[i])
    ensures First(lines, test) == |lines|
  {
    forall i | 0 <= i < |lines| ensures !Passes(lines[i], test) {
      BlankIsNothing(lines[i], test);
    }
    FirstIs(lines, test, |lines|);
  }

  lemma BlankIsNothing(line: string, test: Test)
    requires Blank(line)
    ensures !Passes(line, test)
  {
    match test
    case IsField(key) => if Passes(line, test) { FieldShape(line, key); }
    case IsHexSha => if Passes(line, test) { FieldShape(line, Sha); }
    case IsTightPath => if Passes(line, test) { FieldShape(line, FilePath); }
    case IsText =>
    case IsClose =>
  }

  lemma CutIs(body: seq<string>)
    requires Has(body, IsHexSha) || Has(body, IsTightPath)
    ensures var c := CutOf(body); body == c.before + (c.dropped + c.after)
    ensures Blank(CutOf(body).indent)
    ensures var c := CutOf(body); forall i {:trigger Blank(c.blanks[i])} :: 0 <= i < |c.blanks| ==> Blank(c.blanks[i])
  {
    hide First, Passes, ReadField, Blank, BlanksBefore;
    IndentIsBlank(body);
    var h := First(body, IsHexSha);
    if h < |body| {
      Rejoined(body, h, First(body[h + 1..], IsText));
    } else {
      Halves(body, First(body, IsTightPath) + 1);
    }
  }

  lemma IndentIsBlank(body: seq<string>)
    requires Has(body, IsHexSha) || Has(body, IsTightPath)
    ensures Blank(CutOf(body).indent)
  {
    hide First, ReadField, Blank;
    var h, p := First(body, IsHexSha), First(body, IsTightPath);
    if h < |body| {
      FieldShape(body[h], Sha);
    } else {
      FieldShape(body[p], FilePath);
    }
  }

  /** What the rewriter puts in: blank lines and the checksum, in front of what it keeps after. */
  lemma PutIn(blanks: seq<string>, indent: string, checksum: string, after: seq<string>, test: Test)
    requires forall i {:trigger Blank(blanks[i])} :: 0 <= i < |blanks| ==> Blank(blanks[i])
    requires Blank(indent) && IsHex(checksum) && checksum != ""
    ensures var added := blanks + ([ShaLine(indent, checksum)] + after);
            First(added, test)
              == |blanks| + if test in {IsField(Sha), IsHexSha, IsText} then 0 else 1 + First(after, test)
  {
    ShaLineIs(indent, checksum, test);
    hide Passes, ShaLine, Blank;
    var line := ShaLine(indent, checksum);
    NoneInBlank(blanks, test);
    FirstConcat(blanks, [line] + after, test);
    assert ([line] + after)[1..] == after;
  }

  lemma ShaLineIs(indent: string, checksum: string, test: Test)
    requires Blank(indent) && IsHex(checksum) && checksum != ""
    ensures Passes(ShaLine(indent, checksum), test) <==> test in {IsField(Sha), IsHexSha, IsText}
  {
    var line := ShaLine(indent, checksum);
    ShaReadsBack(indent, checksum);
    FieldShape(line, Sha);
    hide ShaLine, ReadField, Blank;
    match test
    case IsField(key) => if ReadField(line, key).Some? { OneField(line, key, Sha); }
    case IsTightPath => if ReadField(line, FilePath).Some? { OneField(line, FilePath, Sha); }
    case _ =>
  }

  /** The lines dropped: a checksum line and blank ones, so only a checksum field is lost. */
  lemma DroppedIs(body: seq<string>, test: Test)
    requires Has(body, IsHexSha) || Has(body, IsTightPath)
    requires test !in {IsField(Sha), IsHexSha, IsText}
    ensures First(CutOf(body).dropped, test) == |CutOf(body).dropped|
  {
    hide Passes, Blank, ReadField;
    var h := First(body, IsHexSha);
    if h < |body| {
      var rest := body[h + 1..];
      HexShaIs(body[h], test);
      LeadingBlanks(rest, test);
      FirstConcat([body[h]], rest[..First(rest, IsText)], test);
    }
  }

  lemma LeadingBlanks(rest: seq<string>, test: Test)
    requires test != IsText
    ensures var blanks := rest[..First(rest, IsText)]; First(blanks, test) == |blanks|
  {
    hide Passes, Blank;
    var blanks := rest[..First(rest, IsText)];
    forall i | 0 <= i < |blanks| ensures Blank(blanks[i]) {
      NotTextIsBlank(rest[i]);
    }
    NoneInBlank(blanks, test);
  }

  lemma NotTextIsBlank(line: string)
    ensures !Passes(line, IsText) ==> Blank(line)
  {
  }

  lemma HexShaIs(line: string, test: Test)
    requires Passes(line, IsHexSha) && test !in {IsField(Sha), IsHexSha, IsText}
    ensures !Passes(line, test)
  {
    FieldShape(line, Sha);
    hide ReadField, Blank;
    match test
    case IsField(key) => if ReadField(line, key).Some? { OneField(line, key, Sha); }
    case IsTightPath => if ReadField(line, FilePath).Some? { OneField(line, FilePath, Sha); }
    case _ =>
  }

  // ---------------------------------------------------------------------------------------------
  // What rewriting a block does to its fields
  // ---------------------------------------------------------------------------------------------

  lemma FieldPutIn(blanks: seq<string>, indent: string, checksum: string, after: seq<string>, key: Key)
    requires forall i {:trigger Blank(blanks[i])} :: 0 <= i < |blanks| ==> Blank(blanks[i])
    requires Blank(indent) && IsHex(checksum) && checksum != ""
    ensures StringField(blanks + ([ShaLine(indent, checksum)] + after), key)
         == if key == Sha then Some(checksum) else StringField(after, key)
  {
    hide First, Passes, ShaLine, ReadField, Blank, IsHex;
    PutIn(blanks, indent, checksum, after, IsField(key));
    ShaReadsBack(indent, checksum);
    var line, n := ShaLine(indent, checksum), First(after, IsField(key));
    var added := blanks + ([line] + after);
    assert added[|blanks|] == line;
    assert n < |after| ==> added[|blanks| + 1 + n] == after[n];
  }

  lemma {:induction false} RewrittenField(body: seq<string>, checksum: string, key: Key)
    requires WithSha(body, checksum).Some? && IsHex(checksum) && checksum != ""
    ensures StringField(WithSha(body, checksum).value, key)
         == if StringField(CutOf(body).before, key).Some? then StringField(CutOf(body).before, key)
            else if key == Sha then Some(checksum) else StringField(CutOf(body).after, key)
  {
    CutIs(body);
    hide StringField, CutOf, ShaLine, Has;
    var c := CutOf(body);
    FieldPutIn(c.blanks, c.indent, checksum, c.after, key);
    StringFieldConcat(c.before, c.blanks + ([ShaLine(c.indent, checksum)] + c.after), key);
  }

  /** Rewriting keeps the name and the path. */
  lemma OtherFieldsKept(body: seq<string>, checksum: string, key: Key)
    requires WithSha(body, checksum).Some? && IsHex(checksum) && checksum != "" && key != Sha
    ensures StringField(WithSha(body, checksum).value, key) == StringField(body, key)
  {
    CutIs(body);
    DroppedIs(body, IsField(key));
    RewrittenField(body, checksum, key);
    var c := CutOf(body);
    assert StringField(c.dropped, key) == None;
    hide StringField, CutOf, WithSha;
    StringFieldConcat(c.dropped, c.after, key);
    StringFieldConcat(c.before, c.dropped + c.after, key);
  }

  /** Before the cut there is no hexadecimal checksum, so a checksum field there is not the one put in. */
  lemma NoHexBefore(body: seq<string>)
    requires Has(body, IsHexSha) || Has(body, IsTightPath)
    ensures !Has(CutOf(body).before, IsHexSha)
    ensures StringField(CutOf(body).before, Sha).Some? ==> !IsHex(StringField(CutOf(body).before, Sha).value)
  {
    hide First, ReadField, IsHex, BlanksBefore, Trimmed;
    var before := CutOf(body).before;
    forall i | 0 <= i < |before| ensures !Passes(before[i], IsHexSha) {
      assert before[i] == body[i];
    }
  }

  lemma RefreshableIs(body: seq<string>)
    requires Has(body, IsHexSha) || Has(body, IsTightPath)
    ensures Refreshable(body) <==> StringField(CutOf(body).before, Sha).None?
  {
    CutIs(body);
    var c := CutOf(body);
    FirstConcat(c.before, c.dropped + c.after, IsField(Sha));
    hide First, ReadField, BlanksBefore, Trimmed;
    var h := First(body, IsHexSha);
    assert h < |body| ==> Passes(body[h], IsField(Sha));
  }

  /** The checker reads the new checksum exactly when the block was refreshable. */
  lemma ChecksumRead(body: seq<string>, checksum: string)
    requires WithSha(body, checksum).Some? && IsHex(checksum) && checksum != ""
    ensures StringField(WithSha(body, checksum).value, Sha) == Some(checksum) <==> Refreshable(body)
  {
    RefreshableIs(body);
    NoHexBefore(body);
    RewrittenField(body, checksum, Sha);
  }

  /** Rewriting brings in no closing line. */
  lemma StaysOpen(body: seq<string>, checksum: string)
    requires WithSha(body, checksum).Some? && IsHex(checksum) && checksum != ""
    ensures Has(WithSha(body, checksum).value, IsClose) <==> Has(body, IsClose)
  {
    CutIs(body);
    DroppedIs(body, IsClose);
    hide First, CutOf;
    var c := CutOf(body);
    var added := c.blanks + ([ShaLine(c.indent, checksum)] + c.after);
    PutIn(c.blanks, c.indent, checksum, c.after, IsClose);
    FirstConcat(c.before, added, IsClose);
    FirstConcat(c.dropped, c.after, IsClose);
    FirstConcat(c.before, c.dropped + c.after, IsClose);
  }

  lemma HexReplaced(body: seq<string>, checksum: string)
    requires Has(body, IsHexSha)
    ensures var k := First(body, IsHexSha);
            && ReadField(body[k], Sha).Some?
            && WithSha(body, checksum)
            == Some(body[..k] + ([] + ([ShaLine(ReadField(body[k], Sha).value.indent, checksum)] + Trimmed(body[k + 1..]))))
  {
    hide First, ReadField, ShaLine, Trimmed, BlanksBefore, IsHex;
  }

  lemma HexPlaced(body: seq<string>, checksum: string)
    requires WithSha(body, checksum).Some? && IsHex(checksum) && checksum != ""
    ensures var c, rewritten := CutOf(body), WithSha(body, checksum).value;
            && Has(rewritten, IsHexSha)
            && First(rewritten, IsHexSha) == |c.before| + |c.blanks|
            && ReadField(ShaLine(c.indent, checksum), Sha) == Some(Field(c.indent, checksum, ""))
  {
    CutIs(body);
    NoHexBefore(body);
    hide First, ReadField, CutOf, Blank, IsHex, Passes;
    var c := CutOf(body);
    ShaReadsBack(c.indent, checksum);
    PutIn(c.blanks, c.indent, checksum, c.after, IsHexSha);
    hide ShaLine;
    FirstConcat(c.before, c.blanks + ([ShaLine(c.indent, checksum)] + c.after), IsHexSha);
  }

  /** A rewritten block is rewritten at the same place again; only blank lines behind the checksum can go. */
  lemma RewrittenAgain(body: seq<string>, checksum: string)
    requires WithSha(body, checksum).Some? && IsHex(checksum) && checksum != ""
    ensures var c, rewritten := CutOf(body), WithSha(body, checksum).value;
            && Has(rewritten, IsHexSha)
            && WithSha(rewritten, checksum) == Some(c.before + (c.blanks + ([ShaLine(c.indent, checksum)] + Trimmed(c.after))))
  {
    HexPlaced(body, checksum);
    var c, rewritten := CutOf(body), WithSha(body, checksum).value;
    var line := ShaLine(c.indent, checksum);
    assert rewritten == c.before + (c.blanks + ([line] + c.after));
    HexReplaced(rewritten, checksum);
    hide First, ReadField, CutOf, ShaLine, Trimmed, WithSha, Has;
    Placed(c.before, c.blanks, line, c.after);
    Regrouped(c.before, c.blanks, [line] + Trimmed(c.after));
  }

  lemma TrimmedStays(lines: seq<string>)
    ensures Trimmed(lines) == lines <==> First(lines, IsText) == 0
    ensures First(Trimmed(lines), IsText) == 0
  {
    var n := First(lines, IsText);
    assert |Trimmed(lines)| == |lines| - n;
    assert n < |lines| ==> Trimmed(lines)[0] == lines[n];
  }

  /** Rewriting a second time changes nothing exactly when the block was settled. */
  lemma SecondRewriting(body: seq<string>, checksum: string)
    requires WithSha(body, checksum).Some? && IsHex(checksum) && checksum != ""
    ensures var rewritten := WithSha(body, checksum).value;
            WithSha(rewritten, checksum) == Some(rewritten) <==> Settled(body)
  {
    RewrittenAgain(body, checksum);
    var c := CutOf(body);
    TrimmedStays(c.after);
    SettledIs(body);
    hide First, ReadField, ShaLine, Trimmed, CutOf, Settled, Has;
    var line := ShaLine(c.indent, checksum);
    Placed(c.before, c.blanks, line, c.after);
    Placed(c.before, c.blanks, line, Trimmed(c.after));
  }

  lemma SettledIs(body: seq<string>)
    requires Has(body, IsHexSha) || Has(body, IsTightPath)
    ensures Settled(body) <==> First(CutOf(body).after, IsText) == 0
  {
    hide ReadField, BlanksBefore, Blank;
    var h, p := First(body, IsHexSha), First(body, IsTightPath);
    if h < |body| {
      TrimmedStays(body[h + 1..]);
    } else {
      var after := body[p + 1..];
      assert after != [] ==> after[0] == body[p + 1];
    }
  }

  /** Once rewritten twice, a block stays. */
  lemma ThirdRewriting(body: seq<string>, checksum: string)
    requires WithSha(body, checksum).Some? && IsHex(checksum) && checksum != ""
    ensures var rewritten := WithSha(body, checksum).value;
            && WithSha(rewritten, checksum).Some?
            && var second := WithSha(rewritten, checksum).value;
               WithSha(second, checksum) == Some(second)
  {
    RewrittenAgain(body, checksum);
    hide CutOf, First, ShaLine, WithSha;
    SecondRewriting(WithSha(body, checksum).value, checksum);
  }

  // ---------------------------------------------------------------------------------------------
  // What rewriting a block does to its other lines
  // ---------------------------------------------------------------------------------------------

  /** The lines that are not blank, in order. */
  function Texts(lines: seq<string>): seq<string>
  {
    if lines == [] then []
    else (if Passes(lines[0], IsText) then [lines[0]] else []) + Texts(lines[1..])
  }

  lemma {:induction false} TextsConcat(a: seq<string>, b: seq<string>)
    ensures Texts(a + b) == Texts(a) + Texts(b)
  {
    hide Passes;
    if a == [] {
      assert a + b == b;
    } else {
      assert (a + b)[0] == a[0] && (a + b)[1..] == a[1..] + b;
      TextsConcat(a[1..], b);
      Associated(if Passes(a[0], IsText) then [a[0]] else [], Texts(a[1..]), Texts(b));
    }
  }

  lemma {:induction false} BlanksHaveNoTexts(lines: seq<string>)
    requires First(lines, IsText) == |lines|
    ensures Texts(lines) == []
  {
    hide Passes;
    if lines != [] {
      BlanksHaveNoTexts(lines[1..]);
    }
  }

  lemma OneText(line: string)
    requires Passes(line, IsText)
    ensures Texts([line]) == [line]
  {
    hide Passes;
    assert Texts([line][1..]) == [];
  }

  /** The checksum line a block is rewritten at, if it has one. */
  function Replaced(body: seq<string>): seq<string>
  {
    var h := First(body, IsHexSha);
    if h < |body| then [body[h]] else []
  }

  lemma DroppedTexts(body: seq<string>)
    requires Has(body, IsHexSha) || Has(body, IsTightPath)
    ensures Texts(CutOf(body).dropped) == Replaced(body)
  {
    hide Passes, Blank, ReadField, Texts, Trimmed, BlanksBefore;
    var h := First(body, IsHexSha);
    if h < |body| {
      var rest := body[h + 1..];
      HexIsText(body[h]);
      OneText(body[h]);
      LeadingNoTexts(rest);
      TextsConcat([body[h]], rest[..First(rest, IsText)]);
    } else {
      BlanksHaveNoTexts([]);
    }
  }

  lemma HexIsText(line: string)
    requires Passes(line, IsHexSha)
    ensures Passes(line, IsText)
  {
    hide Blank, ReadField;
    if Blank(line) {
      BlankIsNothing(line, IsHexSha);
    }
  }

  lemma LeadingNoTexts(rest: seq<string>)
    ensures Texts(rest[..First(rest, IsText)]) == []
  {
    hide Passes;
    var n := First(rest, IsText);
    FirstIs(rest[..n], IsText, n);
    BlanksHaveNoTexts(rest[..n]);
  }

  lemma PutInTexts(body: seq<string>, checksum: string)
    requires WithSha(body, checksum).Some? && IsHex(checksum) && checksum != ""
    ensures var c := CutOf(body);
            Texts(c.blanks + ([ShaLine(c.indent, checksum)] + c.after)) == [ShaLine(c.indent, checksum)] + Texts(c.after)
  {
    hide Passes, Blank, ShaLine, CutOf, IsHex;
    CutIs(body);
    var c := CutOf(body);
    var line := ShaLine(c.indent, checksum);
    ShaLineIs(c.indent, checksum, IsText);
    NoneInBlank(c.blanks, IsText);
    BlanksHaveNoTexts(c.blanks);
    OneText(line);
    TextsConcat([line], c.after);
    TextsConcat(c.blanks, [line] + c.after);
  }

  /**
   Of the lines that are not blank, rewriting keeps all and their order; it replaces the checksum line it found,
   or puts one in.
   */
  lemma TextsKept(body: seq<string>, checksum: string)
    requires WithSha(body, checksum).Some? && IsHex(checksum) && checksum != ""
    ensures var c := CutOf(body);
            && Texts(body) == Texts(c.before) + (Replaced(body) + Texts(c.after))
            && Texts(WithSha(body, checksum).value)
            == Texts(c.before) + ([ShaLine(c.indent, checksum)] + Texts(c.after))
  {
    hide Passes, Blank, ShaLine, CutOf, Texts, Replaced, IsHex;
    CutIs(body);
    DroppedTexts(body);
    PutInTexts(body, checksum);
    var c := CutOf(body);
    TextsConcat(c.dropped, c.after);
    TextsConcat(c.before, c.dropped + c.after);
    TextsConcat(c.before, c.blanks + ([ShaLine(c.indent, checksum)] + c.after));
  }

  /** The same lines in the same order, but for one checksum line put in, or standing where another stood. */
  ghost predicate OneShaSet(before: seq<string>, after: seq<string>, k: nat)
  {
    && k < |after| && Passes(after[k], IsHexSha)
    && (|| before == after[..k] + after[k + 1..]
        || (|before| == |after| && Passes(before[k], IsHexSha) && before == after[k := before[k]]))
  }

  lemma OneShaIsSet(body: seq<string>, checksum: string)
    requires WithSha(body, checksum).Some? && IsHex(checksum) && checksum != ""
    ensures exists k :: OneShaSet(Texts(body), Texts(WithSha(body, checksum).value), k)
  {
    hide Passes, Blank, ShaLine, CutOf, Texts, IsHex;
    TextsKept(body, checksum);
    CutIs(body);
    var c := CutOf(body);
    var line, front, back := ShaLine(c.indent, checksum), Texts(c.before), Texts(c.after);
    ShaLineIs(c.indent, checksum, IsHexSha);
    Between(front, line, back);
    var k, after := |front|, front + ([line] + back);
    if Replaced(body) != [] {
      Between(front, Replaced(body)[0], back);
      assert front + (Replaced(body) + back) == after[k := Replaced(body)[0]];
    } else {
      assert front + ([] + back) == after[..k] + after[k + 1..];
    }
    assert OneShaSet(Texts(body), after, k);
  }

  /** A checksum line, character by character. */
  lemma ShaLineSpelled(indent: string, checksum: string)
    ensures ShaLine(indent, checksum) == indent + "sha256 = \"" + checksum + "\","
  {
    assert Spelling(Sha) + " = \"" == "sha256 = \"";
  }

  ghost predicate AllBlank(lines: seq<string>)
  {
    forall i {:trigger Blank(lines[i])} :: 0 <= i < |lines| ==> Blank(lines[i])
  }

  /** The line stands in place of line `h` and of the `n` lines behind it, all the blank ones there. */
  ghost predicate Replaces(body: seq<string>, h: nat, n: nat, line: string, rewritten: seq<string>)
  {
    && h + 1 + n <= |body| && AllBlank(body[h + 1..][..n])
    && (h + 1 + n < |body| ==> !Blank(body[h + 1..][n]))
    && rewritten == body[..h] + ([] + ([line] + body[h + 1..][n..]))
  }

  /** The line stands behind line `p`, with blank lines between. */
  ghost predicate StandsBehind(body: seq<string>, p: nat, blanks: seq<string>, line: string, rewritten: seq<string>)
  {
    && p < |body| && AllBlank(blanks)
    && rewritten == body[..p + 1] + (blanks + ([line] + body[p + 1..]))
  }

  lemma TextStops(rest: seq<string>)
    ensures var n := First(rest, IsText); AllBlank(rest[..n]) && (n < |rest| ==> !Blank(rest[n]))
  {
    hide Blank;
    var n := First(rest, IsText);
    forall i | 0 <= i < n ensures Blank(rest[..n][i]) {
      NotTextIsBlank(rest[i]);
    }
  }

  /**
   Where the checksum goes: in place of the first line that has a hexadecimal one, in that line's indent; without
   such a line, behind the first path line that ends in its comma, in that line's indent. Besides this line only
   blank lines come or go, next to it.
   */
  lemma ShaPlaced(body: seq<string>, checksum: string)
    requires WithSha(body, checksum).Some?
    ensures var h, p, rewritten := First(body, IsHexSha), First(body, IsTightPath), WithSha(body, checksum).value;
            if h < |body| then
              && ReadField(body[h], Sha).Some?
              && exists n :: Replaces(body, h, n, ShaLine(ReadField(body[h], Sha).value.indent, checksum), rewritten)
            else
              && p < |body| && ReadField(body[p], FilePath).Some?
              && exists blanks ::
                   StandsBehind(body, p, blanks, ShaLine(ReadField(body[p], FilePath).value.indent, checksum), rewritten)
  {
    hide First, ReadField, ShaLine, Blank, BlanksBefore, IsHex;
    var h, p := First(body, IsHexSha), First(body, IsTightPath);
    if h < |body| {
      HexReplaced(body, checksum);
      TextStops(body[h + 1..]);
      var n := First(body[h + 1..], IsText);
      assert Replaces(body, h, n, ShaLine(ReadField(body[h], Sha).value.indent, checksum), WithSha(body, checksum).value);
    } else {
      var blanks, line := BlanksBefore(body, p), ShaLine(ReadField(body[p], FilePath).value.indent, checksum);
      assert StandsBehind(body, p, blanks, line, WithSha(body, checksum).value);
    }
  }
}
