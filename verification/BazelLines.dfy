/**
 The one-line string fields of an `http_file` block, and how the rewriter puts a checksum into one.
 A block's body is its lines between the opening and the closing one.
 */
module BazelLines {
  import opened Common

  function SkipSpaces(s: string): string
  {
    if s != [] && IsSpace(s[0]) then SkipSpaces(s[1..]) else s
  }

  predicate Blank(s: string)
  {
    forall i :: 0 <= i < |s| ==> IsSpace(s[i])
  }

  /** How many characters come before the first quote. */
  function BeforeQuote(s: string): (n: nat)
    ensures n <= |s|
  {
    if s == [] || s[0] == '"' then 0 else 1 + BeforeQuote(s[1..])
  }

  predicate IsHex(s: string)
  {
    forall i :: 0 <= i < |s| ==> '0' <= s[i] <= '9' || 'a' <= s[i] <= 'f'
  }

  /** The fields that matter. */
  datatype Key = Name | FilePath | Sha

  function Spelling(key: Key): string
  {
    match key
    case Name => "name"
    case FilePath => "downloaded_file_path"
    case Sha => "sha256"
  }

  /** A field line taken apart. */
  datatype Field = Field(indent: string, value: string, trailing: string)

  /** What follows the opening quote: a value, the closing quote, a comma, and nothing but space. */
  function ReadQuoted(s: string): Option<(string, string)>
  {
    var n := BeforeQuote(s);
    if n == 0 || |s| < n + 2 || s[n + 1] != ',' || !Blank(s[n + 2..]) then None
    else Some((s[..n], s[n + 2..]))
  }

  /** What follows the field's name: an equals sign and a quoted value. */
  function ReadValue(s: string): Option<(string, string)>
  {
    var a := SkipSpaces(s);
    if a == [] || a[0] != '=' then None
    else
      var b := SkipSpaces(a[1..]);
      if b == [] || b[0] != '"' then None else ReadQuoted(b[1..])
  }

  function ReadField(line: string, key: Key): Option<Field>
  {
    var text := SkipSpaces(line);
    if !(Spelling(key) <= text) || |text| > |line| then None
    else
      var read := ReadValue(text[|Spelling(key)|..]);
      if read.None? then None
      else Some(Field(line[..|line| - |text|], read.value.0, read.value.1))
  }

  /** A field line as the rewriter writes one. */
  function FieldLine(key: Key, indent: string, value: string): string
  {
    indent + (Spelling(key) + (" = \"" + (value + "\",")))
  }

  function ShaLine(indent: string, checksum: string): string
  {
    FieldLine(Sha, indent, checksum)
  }

  lemma {:induction false} SkipsBlank(blank: string, s: string)
    requires Blank(blank)
    ensures SkipSpaces(blank + s) == SkipSpaces(s)
  {
    if blank == [] {
      assert blank + s == s;
    } else {
      assert (blank + s)[1..] == blank[1..] + s;
      SkipsBlank(blank[1..], s);
    }
  }

  /** What is left is the end of the text. */
  lemma {:induction false} SkipLeavesEnd(s: string)
    ensures |SkipSpaces(s)| <= |s| && s[|s| - |SkipSpaces(s)|..] == SkipSpaces(s)
  {
    hide IsSpace;
    if s != [] && IsSpace(s[0]) {
      SkipLeavesEnd(s[1..]);
    }
  }

  /** What is skipped is space. */
  lemma {:induction false} SkipsOnlySpace(s: string, i: nat)
    requires i < |s| - |SkipSpaces(s)|
    ensures IsSpace(s[i])
  {
    hide IsSpace;
    if i > 0 {
      SkipsOnlySpace(s[1..], i - 1);
    }
  }

  /** Skipping stops at a character that is no space. */
  lemma {:induction false} SkipStops(s: string)
    ensures SkipSpaces(s) != [] ==> !IsSpace(SkipSpaces(s)[0])
  {
    hide IsSpace;
    if s != [] && IsSpace(s[0]) {
      SkipStops(s[1..]);
    }
  }

  lemma {:induction false} QuoteFound(value: string, s: string)
    requires '"' !in value
    ensures BeforeQuote(value + "\"" + s) == |value|
  {
    if value != [] {
      assert (value + "\"" + s)[1..] == value[1..] + "\"" + s;
      QuoteFound(value[1..], s);
    }
  }

  lemma QuotedReadsBack(value: string)
    requires value != "" && '"' !in value
    ensures ReadQuoted(value + "\",") == Some((value, ""))
  {
    var s := value + "\",";
    assert s == value + "\"" + ",";
    QuoteFound(value, ",");
    assert s[..|value|] == value && s[|value| + 2..] == "";
  }

  lemma ValueReadsBack(value: string)
    requires value != "" && '"' !in value
    ensures ReadValue(" = \"" + (value + "\",")) == Some((value, ""))
  {
    hide ReadQuoted, Blank;
    QuotedReadsBack(value);
    var quoted := "\"" + (value + "\",");
    var s := " = \"" + (value + "\",");
    assert s[1..] == "=" + (" " + quoted);
    assert SkipSpaces(s) == s[1..];
    assert s[2..] == " " + quoted;
    assert SkipSpaces(s[2..]) == quoted;
    assert quoted[1..] == value + "\",";
  }

  /** A field line is read back with the indent and the value it was given. */
  lemma FieldReadsBack(key: Key, indent: string, value: string)
    requires Blank(indent) && value != "" && '"' !in value
    ensures ReadField(FieldLine(key, indent, value), key) == Some(Field(indent, value, ""))
  {
    var rest := " = \"" + (value + "\",");
    var text := Spelling(key) + rest;
    SkipsBlank(indent, text);
    assert text[0] == Spelling(key)[0] && SkipSpaces(text) == text;
    assert text[|Spelling(key)|..] == rest;
    ValueReadsBack(value);
    assert FieldLine(key, indent, value) == indent + text;
    assert (indent + text)[..|indent|] == indent;
  }

  lemma ShaReadsBack(indent: string, checksum: string)
    requires Blank(indent) && IsHex(checksum) && checksum != ""
    ensures ReadField(ShaLine(indent, checksum), Sha) == Some(Field(indent, checksum, ""))
  {
    FieldReadsBack(Sha, indent, checksum);
  }

  /** A line is at most one field. */
  lemma OneField(line: string, a: Key, b: Key)
    requires ReadField(line, a).Some? && ReadField(line, b).Some?
    ensures a == b
  {
    var text := SkipSpaces(line);
    assert Spelling(a)[0] == text[0] && Spelling(b)[0] == text[0];
  }

  lemma FieldShape(line: string, key: Key)
    requires ReadField(line, key).Some?
    ensures !Blank(line) && Blank(ReadField(line, key).value.indent)
    ensures line[0] != ')'
  {
    hide IsSpace, SkipSpaces, ReadValue;
    var text := SkipSpaces(line);
    SkipLeavesEnd(line);
    SkipStops(line);
    var n := |line| - |text|;
    assert text[0] == Spelling(key)[0] && line[n] == text[0];
    forall i | 0 <= i < n ensures IsSpace(line[i]) {
      SkipsOnlySpace(line, i);
    }
    ParenthesisIsText();
  }

  lemma ParenthesisIsText()
    ensures !IsSpace(')')
  {
  }

  // ---------------------------------------------------------------------------------------------
  // The pattern of a field line
  // ---------------------------------------------------------------------------------------------

  /** How a field is called in the text. */
  predicate Called(key: Key, name: string)
  {
    match key
    case Name => name == "name"
    case FilePath => name == "downloaded_file_path"
    case Sha => name == "sha256"
  }

  /** The text behind the opening quote. */
  function Quoted(value: string, trailing: string): string
  {
    value + ("\"," + trailing)
  }

  /** The line is the field's name, an equals sign, a value in quotes and a comma, with space around them. */
  ghost predicate IsFieldLine(line: string, name: string, field: Field, a: string, b: string)
  {
    && line == field.indent + (name + (a + ("=" + (b + ("\"" + Quoted(field.value, field.trailing))))))
    && Blank(field.indent) && Blank(a) && Blank(b) && Blank(field.trailing)
    && field.value != "" && '"' !in field.value
  }

  lemma {:induction false} QuoteStops(s: string)
    ensures '"' !in s[..BeforeQuote(s)] && (BeforeQuote(s) < |s| ==> s[BeforeQuote(s)] == '"')
  {
    if s != [] && s[0] != '"' {
      QuoteStops(s[1..]);
      assert s[..BeforeQuote(s)] == [s[0]] + s[1..][..BeforeQuote(s[1..])];
    }
  }

  lemma QuotedMeans(s: string, value: string, trailing: string)
    ensures ReadQuoted(s) == Some((value, trailing))
       <==> s == Quoted(value, trailing) && value != "" && '"' !in value && Blank(trailing)
  {
    hide Blank, BeforeQuote;
    if s == Quoted(value, trailing) && '"' !in value {
      assert s == value + "\"" + ("," + trailing);
      QuoteFound(value, "," + trailing);
      assert s[..|value|] == value && s[|value| + 2..] == trailing;
    }
    if ReadQuoted(s) == Some((value, trailing)) {
      QuoteStops(s);
      var n := BeforeQuote(s);
      assert s == s[..n] + ([s[n], s[n + 1]] + s[n + 2..]);
    }
  }

  lemma SkippedPart(s: string)
    ensures |SkipSpaces(s)| <= |s|
    ensures var n := |s| - |SkipSpaces(s)|; Blank(s[..n]) && s == s[..n] + SkipSpaces(s)
  {
    hide IsSpace, SkipSpaces;
    SkipLeavesEnd(s);
    var n := |s| - |SkipSpaces(s)|;
    forall i | 0 <= i < n ensures IsSpace(s[i]) {
      SkipsOnlySpace(s, i);
    }
  }

  lemma SkipsTo(blank: string, s: string)
    requires Blank(blank) && s != "" && !IsSpace(s[0])
    ensures SkipSpaces(blank + s) == s
  {
    SkipsBlank(blank, s);
  }

  lemma SignsAreText()
    ensures !IsSpace('=') && !IsSpace('"') && !IsSpace('n') && !IsSpace('d') && !IsSpace('s')
  {
  }

  lemma ValueRead(a: string, b: string, quoted: string)
    requires Blank(a) && Blank(b)
    ensures ReadValue(a + ("=" + (b + ("\"" + quoted)))) == ReadQuoted(quoted)
  {
    hide SkipSpaces, ReadQuoted, Blank, IsSpace;
    SignsAreText();
    var tail := "\"" + quoted;
    var middle := "=" + (b + tail);
    SkipsTo(a, middle);
    SkipsTo(b, tail);
    assert middle[1..] == b + tail && tail[1..] == quoted;
  }

  lemma Begins(s: string, c: char)
    requires s != "" && s[0] == c
    ensures s == [c] + s[1..]
  {
  }

  lemma ValueShape(s: string) returns (a: string, b: string, quoted: string)
    requires ReadValue(s).Some?
    ensures s == a + ("=" + (b + ("\"" + quoted))) && Blank(a) && Blank(b) && ReadValue(s) == ReadQuoted(quoted)
  {
    hide SkipSpaces, ReadQuoted, Blank;
    var middle := SkipSpaces(s);
    var tail := SkipSpaces(middle[1..]);
    SkippedPart(s);
    SkippedPart(middle[1..]);
    a, b, quoted := s[..|s| - |middle|], middle[1..][..|middle[1..]| - |tail|], tail[1..];
    Begins(middle, '=');
    Begins(tail, '"');
  }

  /** Reading a field is matching its pattern. */
  lemma FieldMeans(line: string, key: Key, name: string, field: Field)
    requires Called(key, name)
    ensures ReadField(line, key) == Some(field) <==> exists a, b :: IsFieldLine(line, name, field, a, b)
  {
    hide SkipSpaces, ReadValue, ReadQuoted, Blank, Quoted;
    assert name == Spelling(key);
    if a, b :| IsFieldLine(line, name, field, a, b) {
      FieldIsRead(line, key, name, field, a, b);
    }
    if ReadField(line, key) == Some(field) {
      FieldIsMatched(line, key, name, field);
    }
  }

  lemma FieldIsRead(line: string, key: Key, name: string, field: Field, a: string, b: string)
    requires name == Spelling(key) && IsFieldLine(line, name, field, a, b)
    ensures ReadField(line, key) == Some(field)
  {
    hide SkipSpaces, ReadValue, ReadQuoted, Blank, Quoted, IsSpace;
    var quoted := Quoted(field.value, field.trailing);
    var rest := a + ("=" + (b + ("\"" + quoted)));
    var text := name + rest;
    SignsAreText();
    assert text[0] == name[0] && name[0] in ['n', 'd', 's'];
    SkipsTo(field.indent, text);
    assert text[|name|..] == rest && (field.indent + text)[..|field.indent|] == field.indent;
    ValueRead(a, b, quoted);
    QuotedMeans(quoted, field.value, field.trailing);
  }

  lemma FieldIsMatched(line: string, key: Key, name: string, field: Field)
    requires name == Spelling(key) && ReadField(line, key) == Some(field)
    ensures exists a, b :: IsFieldLine(line, name, field, a, b)
  {
    hide SkipSpaces, ReadValue, ReadQuoted, Blank, Quoted, Spelling;
    SkippedPart(line);
    var text := SkipSpaces(line);
    var rest := text[|name|..];
    assert text == name + rest;
    var a, b, quoted := ValueShape(rest);
    QuotedMeans(quoted, field.value, field.trailing);
    assert IsFieldLine(line, name, field, a, b);
  }
}
