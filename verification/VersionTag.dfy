/**
 Codex versions: the PEP 440 normal form ("Public version identifiers") of a version text, and the release
 tag printed from it.
 */
module VersionTag {
  import opened Common

  // ---------------------------------------------------------------------------------------------
  // Text from its end
  // ---------------------------------------------------------------------------------------------

  /** How many digits a text ends in. */
  function DigitsAtEnd(s: string): (n: nat)
    ensures n <= |s|
  {
    if s == "" || !IsDigit(s[|s| - 1]) then 0 else 1 + DigitsAtEnd(s[..|s| - 1])
  }

  function Front(s: string): string
  {
    s[..|s| - DigitsAtEnd(s)]
  }

  function Tail(s: string): string
  {
    s[|s| - DigitsAtEnd(s)..]
  }

  predicate Ends(s: string, mark: string)
  {
    |mark| <= |s| && s[|s| - |mark|..] == mark
  }

  function Cut(s: string, n: nat): string
    requires n <= |s|
  {
    s[..|s| - n]
  }

  // ---------------------------------------------------------------------------------------------
  // The normal form
  // ---------------------------------------------------------------------------------------------

  datatype Stage = Alpha | Beta | Candidate

  /** A version: its release numbers, and possibly a pre-release and a post-release number. */
  datatype Version = Version(base: string, stage: Option<Stage>, pre: string, post: Option<string>)

  function Letters(stage: Stage): string
  {
    match stage
    case Alpha => "a"
    case Beta => "b"
    case Candidate => "rc"
  }

  function StageName(stage: Stage): string
  {
    match stage
    case Alpha => "-alpha"
    case Beta => "-beta"
    case Candidate => "-rc"
  }

  /** Numbers with dots between them. */
  predicate IsBase(s: string)
    decreases |s|
  {
    Tail(s) != "" && (Front(s) == "" || (Ends(Front(s), ".") && IsBase(Cut(Front(s), 1))))
  }

  predicate Valid(v: Version)
  {
    && IsBase(v.base)
    && (v.stage.Some? ==> IsDigits(v.pre)) && (v.stage.None? ==> v.pre == "")
    && (v.post.Some? ==> IsDigits(v.post.value))
  }

  function PrintPre(v: Version): string
  {
    v.base + if v.stage.Some? then Letters(v.stage.value) + v.pre else ""
  }

  /** The normal form, as text. */
  function Print(v: Version): string
  {
    PrintPre(v) + if v.post.Some? then ".post" + v.post.value else ""
  }

  /** The stage whose letters a text ends in. */
  function StageAtEnd(s: string): Option<Stage>
  {
    if Ends(s, "a") then Some(Alpha)
    else if Ends(s, "b") then Some(Beta)
    else if Ends(s, "rc") then Some(Candidate)
    else None
  }

  function ReadPre(s: string, post: Option<string>): Option<Version>
  {
    var front, number := Front(s), Tail(s);
    var stage := StageAtEnd(front);
    if number == "" then None
    else if stage.None? then Checked(Version(s, None, "", post))
    else Checked(Version(Cut(front, |Letters(stage.value)|), stage, number, post))
  }

  function Checked(v: Version): Option<Version>
  {
    if IsBase(v.base) then Some(v) else None
  }

  /** The version a normal form spells. */
  function Read(s: string): Option<Version>
  {
    if Tail(s) != "" && Ends(Front(s), ".post") then ReadPre(Cut(Front(s), 5), Some(Tail(s)))
    else ReadPre(s, None)
  }

  // ---------------------------------------------------------------------------------------------
  // Normalising and tagging
  // ---------------------------------------------------------------------------------------------

  /** Where a text ends in a stage's name, perhaps with a dot behind it: what comes before. */
  function BeforeName(s: string, stage: Stage): Option<string>
  {
    var name := StageName(stage);
    if Ends(s, name + ".") then Some(Cut(s, |name| + 1))
    else if Ends(s, name) then Some(Cut(s, |name|))
    else None
  }

  /** An alpha with two numbers becomes an alpha with a post-release. */
  function SubstituteHotfix(s: string): string
  {
    var front := Front(s);
    if Tail(s) == "" || !Ends(front, ".") then s
    else
      var inner := Cut(front, 1);
      var before := BeforeName(Front(inner), Alpha);
      if Tail(inner) == "" || before.None? then s
      else before.value + (Letters(Alpha) + (Tail(inner) + (".post" + Tail(s))))
  }

  /** A stage's name and number become its letters and number. */
  function Substitute(s: string, stage: Stage): string
  {
    var before := BeforeName(Front(s), stage);
    if Tail(s) == "" || before.None? then s else before.value + (Letters(stage) + Tail(s))
  }

  /** All substitutions in turn. */
  function Substituted(s: string): string
  {
    Substitute(Substitute(Substitute(SubstituteHotfix(s), Alpha), Beta), Candidate)
  }

  function Strip(s: string): string
    decreases |s|
  {
    if s != "" && IsSpace(s[0]) then Strip(s[1..])
    else if s != "" && IsSpace(s[|s| - 1]) then Strip(s[..|s| - 1])
    else s
  }

  function WithoutPrefix(s: string): string
  {
    if "rust-v" <= s then s[6..] else if "v" <= s then s[1..] else s
  }

  /** The normal form of a version text, if it has one. */
  function Normalize(text: string): Option<string>
  {
    var s := Substituted(WithoutPrefix(Strip(text)));
    if Read(s).Some? then Some(s) else None
  }

  /** The release version of a normal form: pre-releases by name, and an alpha's post-release as a second number. */
  function Release(v: Version): string
  {
    if v.stage.None? then Print(v)
    else if v.post.None? then v.base + (StageName(v.stage.value) + ("." + v.pre))
    else if v.stage.value.Alpha? then v.base + (StageName(Alpha) + ("." + (v.pre + ("." + v.post.value))))
    else Print(v)
  }

  /** The release tag of a version text. */
  function Tag(text: string): Option<string>
  {
    var normal := Normalize(text);
    if normal.None? || Read(normal.value).None? then None else Some("rust-v" + Release(Read(normal.value).value))
  }

  // ---------------------------------------------------------------------------------------------
  // Reading from the end
  // ---------------------------------------------------------------------------------------------

  lemma {:induction false} SplitDigits(p: string, m: string)
    requires (m == "" || IsDigits(m)) && (p == "" || !IsDigit(p[|p| - 1]))
    ensures DigitsAtEnd(p + m) == |m| && Front(p + m) == p && Tail(p + m) == m
    decreases |m|
  {
    if m == "" {
      assert p + m == p;
    } else {
      var fewer := m[..|m| - 1];
      assert (p + m)[..|p + m| - 1] == p + fewer;
      SplitDigits(p, fewer);
    }
  }

  lemma {:induction false} EndsInDigits(s: string, i: nat)
    requires |s| - DigitsAtEnd(s) <= i < |s|
    ensures IsDigit(s[i])
  {
    if i < |s| - 1 {
      EndsInDigits(s[..|s| - 1], i);
    }
  }

  lemma {:induction false} DigitsStop(s: string)
    ensures var n := DigitsAtEnd(s); n < |s| ==> !IsDigit(s[|s| - n - 1])
  {
    if s != "" && IsDigit(s[|s| - 1]) {
      DigitsStop(s[..|s| - 1]);
    }
  }

  lemma TailIsDigits(s: string)
    ensures Tail(s) == "" || IsDigits(Tail(s))
    ensures Front(s) == "" || !IsDigit(Front(s)[|Front(s)| - 1])
    ensures Front(s) + Tail(s) == s
  {
    hide DigitsAtEnd, IsDigit;
    DigitsStop(s);
    var n := |s| - DigitsAtEnd(s);
    forall i | n <= i < |s| ensures IsDigit(s[i]) {
      EndsInDigits(s, i);
    }
  }

  lemma EndsConcat(p: string, mark: string)
    ensures Ends(p + mark, mark) && Cut(p + mark, |mark|) == p
  {
  }

  /** Release numbers end in a digit, start with one, and hold only digits and dots. */
  lemma {:induction false} BaseShape(s: string)
    requires IsBase(s)
    ensures s != "" && IsDigit(s[0]) && IsDigit(s[|s| - 1])
    ensures forall i :: 0 <= i < |s| ==> IsDigit(s[i]) || s[i] == '.'
    decreases |s|
  {
    TailIsDigits(s);
    var front, tail := Front(s), Tail(s);
    assert s == front + tail;
    if front != "" {
      BaseShape(Cut(front, 1));
      assert front == Cut(front, 1) + ".";
    }
  }

  // ---------------------------------------------------------------------------------------------
  // The normal form is read back
  // ---------------------------------------------------------------------------------------------

  lemma PreEnds(v: Version)
    requires Valid(v) && v.stage.Some?
    ensures var front := v.base + Letters(v.stage.value);
            Front(PrintPre(v)) == front && Tail(PrintPre(v)) == v.pre
  {
    hide IsBase, Front, Tail;
    var front := v.base + Letters(v.stage.value);
    SplitDigits(front, v.pre);
    Associated(v.base, Letters(v.stage.value), v.pre);
  }

  lemma PostEnds(v: Version)
    requires Valid(v) && v.post.Some?
    ensures Front(Print(v)) == PrintPre(v) + ".post" && Tail(Print(v)) == v.post.value
  {
    hide IsBase, PrintPre, Front, Tail;
    var front := PrintPre(v) + ".post";
    SplitDigits(front, v.post.value);
    Associated(PrintPre(v), ".post", v.post.value);
  }

  /** What release numbers come to without the last one. */
  lemma BaseEnds(s: string)
    requires IsBase(s)
    ensures Tail(s) != "" && (Front(s) == "" || Ends(Front(s), "."))
    ensures |Front(s)| >= 2 ==> IsDigit(Front(s)[|Front(s)| - 2])
  {
    var front := Front(s);
    if front != "" {
      BaseShape(Cut(front, 1));
    }
  }

  lemma StageRead(base: string, stage: Stage)
    ensures StageAtEnd(base + Letters(stage)) == Some(stage)
    ensures Ends(base + Letters(stage), Letters(stage)) && Cut(base + Letters(stage), |Letters(stage)|) == base
  {
    var letters := Letters(stage);
    var s := base + letters;
    assert s[|s| - 1] == letters[|letters| - 1];
    EndsConcat(base, letters);
  }

  lemma NoStage(s: string)
    requires s == "" || Ends(s, ".")
    ensures StageAtEnd(s) == None
  {
  }

  lemma PreReads(v: Version, post: Option<string>)
    requires Valid(v)
    ensures ReadPre(PrintPre(v), post) == Some(v.(post := post))
  {
    hide IsBase, Front, Tail, StageAtEnd, Letters, Ends, Cut;
    if v.stage.Some? {
      PreEnds(v);
      StageRead(v.base, v.stage.value);
      DigitsSay(v.pre);
    } else {
      BaseEnds(v.base);
      NoStage(Front(v.base));
      assert PrintPre(v) == v.base;
    }
  }

  lemma DigitsSay(s: string)
    requires IsDigits(s)
    ensures s != ""
  {
  }

  lemma PrintReads(v: Version)
    requires Valid(v)
    ensures Read(Print(v)) == Some(v)
  {
    if v.post.Some? {
      PostEnds(v);
      hide IsBase, PrintPre, Front, Tail, ReadPre;
      EndsConcat(PrintPre(v), ".post");
      PreReads(v, v.post);
    } else {
      NotPost(v);
      hide IsBase, PrintPre, Front, Tail, ReadPre;
      assert Print(v) == PrintPre(v);
      PreReads(v, None);
    }
  }

  lemma NotPost(v: Version)
    requires Valid(v) && v.post.None?
    ensures !Ends(Front(Print(v)), ".post")
  {
    hide IsBase, Front, Tail, Ends;
    assert Print(v) == PrintPre(v);
    if v.stage.Some? {
      PreEnds(v);
      var letters := Letters(v.stage.value);
      var front := v.base + letters;
      assert front[|front| - 1] == letters[|letters| - 1];
      LastCharacter(front, ".post");
    } else {
      BaseNotPost(v.base);
      assert PrintPre(v) == v.base;
    }
  }

  lemma BaseNotPost(base: string)
    requires IsBase(base)
    ensures !Ends(Front(base), ".post")
  {
    hide IsBase, Front;
    BaseEnds(base);
  }

  lemma StageEnds(s: string)
    requires StageAtEnd(s).Some?
    ensures var letters := Letters(StageAtEnd(s).value); |letters| <= |s| && s == Cut(s, |letters|) + letters
  {
  }

  lemma PreReadIsPrinted(s: string, post: Option<string>)
    requires ReadPre(s, post).Some? && (post.Some? ==> IsDigits(post.value))
    ensures Valid(ReadPre(s, post).value) && PrintPre(ReadPre(s, post).value) == s
  {
    hide IsBase, Front, Tail, StageAtEnd, Letters, Cut, IsDigits;
    TailIsDigits(s);
    var front, number := Front(s), Tail(s);
    var v := ReadPre(s, post).value;
    if v.stage.Some? {
      StageEnds(front);
      Associated(v.base, Letters(v.stage.value), number);
    } else {
      assert v.base + "" == v.base;
    }
  }

  /** A text is read as a version exactly when it is that version's normal form. */
  lemma ReadIsPrinted(s: string)
    requires Read(s).Some?
    ensures Valid(Read(s).value) && Print(Read(s).value) == s
  {
    TailIsDigits(s);
    hide IsBase, Front, Tail, ReadPre, PrintPre;
    var front := Front(s);
    if Tail(s) != "" && Ends(front, ".post") {
      PreReadIsPrinted(Cut(front, 5), Some(Tail(s)));
      PreReadKeepsPost(Cut(front, 5), Some(Tail(s)));
      assert front == Cut(front, 5) + ".post";
    } else {
      PreReadIsPrinted(s, None);
      PreReadKeepsPost(s, None);
    }
  }

  lemma PreReadKeepsPost(s: string, post: Option<string>)
    ensures ReadPre(s, post).Some? ==> ReadPre(s, post).value.post == post
  {
  }

  // ---------------------------------------------------------------------------------------------
  // What the substitutions do
  // ---------------------------------------------------------------------------------------------

  /** A text that cannot end in a stage's name. */
  predicate Nameless(s: string)
  {
    || |s| < 3 || s[|s| - 1] == 't'
    || IsDigit(s[|s| - 1]) || IsDigit(s[|s| - 2]) || IsDigit(s[|s| - 3])
  }

  lemma NoName(s: string, stage: Stage)
    requires Nameless(s)
    ensures BeforeName(s, stage) == None
  {
    var name := StageName(stage);
    var dotted := name + ".";
    if Ends(s, dotted) {
      EndsAlike(s, dotted);
    } else if Ends(s, name) {
      EndsAlike(s, name);
    }
  }

  lemma EndsAlike(s: string, mark: string)
    requires Ends(s, mark) && |mark| >= 3
    ensures s[|s| - 1] == mark[|mark| - 1] && s[|s| - 2] == mark[|mark| - 2] && s[|s| - 3] == mark[|mark| - 3]
  {
    var n := |s| - |mark|;
    assert s[n..][|mark| - 1] == s[|s| - 1] && s[n..][|mark| - 2] == s[|s| - 2] && s[n..][|mark| - 3] == s[|s| - 3];
  }

  lemma BaseIsNameless(base: string)
    requires IsBase(base)
    ensures Nameless(Front(base)) && (Front(base) != "" ==> Nameless(Front(Cut(Front(base), 1))))
  {
    BaseEnds(base);
    if Front(base) != "" {
      BaseEnds(Cut(Front(base), 1));
    }
  }

  lemma HotfixLeft(s: string)
    requires !Ends(Front(s), ".") || Nameless(Front(Cut(Front(s), 1)))
    ensures SubstituteHotfix(s) == s
  {
    hide Front, Tail, Nameless, BeforeName;
    if Ends(Front(s), ".") {
      NoName(Front(Cut(Front(s), 1)), Alpha);
    }
  }

  lemma FrontOfPrint(v: Version)
    requires Valid(v)
    ensures var front := Front(Print(v));
            Nameless(front) && (!Ends(front, ".") || Nameless(Front(Cut(front, 1))))
  {
    hide IsBase, Front, Tail;
    BaseShape(v.base);
    if v.post.Some? {
      PostEnds(v);
      var front := PrintPre(v) + ".post";
      assert front[|front| - 1] == 't';
    } else if v.stage.Some? {
      PreEnds(v);
      assert Print(v) == PrintPre(v);
      var letters := Letters(v.stage.value);
      var front := v.base + letters;
      assert front[|v.base| - 1] == v.base[|v.base| - 1] && front[|front| - 1] == letters[|letters| - 1];
    } else {
      assert Print(v) == v.base;
      BaseEnds(v.base);
      BaseIsNameless(v.base);
    }
  }

  /** The substitutions leave a normal form alone. */
  lemma NormalIsLeft(v: Version, stage: Stage)
    requires Valid(v)
    ensures SubstituteHotfix(Print(v)) == Print(v) && Substitute(Print(v), stage) == Print(v)
  {
    hide Valid, Front, Tail, Print, Nameless, BeforeName, Ends;
    FrontOfPrint(v);
    HotfixLeft(Print(v));
    NoName(Front(Print(v)), stage);
  }

  lemma NamedEnds(base: string, stage: Stage, number: string)
    requires IsDigits(number)
    ensures var front := base + (StageName(stage) + ".");
            var s := base + (StageName(stage) + ("." + number));
            && Front(s) == front && Tail(s) == number && number != ""
            && Ends(front, ".") && Tail(Cut(front, 1)) == ""
            && BeforeName(front, stage) == Some(base)
  {
    var name := StageName(stage);
    var dotted := name + ".";
    var front := base + dotted;
    var s := base + (name + ("." + number));
    assert s == front + number;
    SplitDigits(front, number);
    EndsConcat(base, dotted);
    assert Cut(front, 1) == base + name;
    assert (base + name)[|base + name| - 1] == name[|name| - 1];
    assert DigitsAtEnd(base + name) == 0;
  }

  lemma OtherName(base: string, stage: Stage, other: Stage)
    requires stage != other
    ensures BeforeName(base + (StageName(stage) + "."), other) == None
  {
    var mine, dotted := StageName(stage) + ".", StageName(other) + ".";
    var front := base + mine;
    assert front[|front| - 1] == '.' && front[|front| - 2] == mine[|mine| - 2] && front[|front| - 3] == mine[|mine| - 3];
    if Ends(front, dotted) {
      EndsAlike(front, dotted);
    } else if Ends(front, StageName(other)) {
      EndsAlike(front, StageName(other));
    }
  }

  lemma NormalStays(v: Version)
    requires Valid(v)
    ensures Substituted(Print(v)) == Print(v)
    ensures Substitute(Substitute(Substitute(Print(v), Alpha), Beta), Candidate) == Print(v)
  {
    hide Valid, Print, Substitute, SubstituteHotfix;
    NormalIsLeft(v, Alpha);
    NormalIsLeft(v, Beta);
    NormalIsLeft(v, Candidate);
  }

  lemma HotfixRead(v: Version)
    requires Valid(v) && v.stage == Some(Alpha) && v.post.Some?
    ensures SubstituteHotfix(Release(v)) == Print(v)
  {
    hide IsBase, Front, Tail, DigitsAtEnd, BeforeName, Cut, Ends;
    var inner := v.base + (StageName(Alpha) + ("." + v.pre));
    var front := inner + ".";
    NamedEnds(v.base, Alpha, v.pre);
    EndsConcat(inner, ".");
    SplitDigits(front, v.post.value);
    DigitsSay(v.post.value);
    assert Release(v) == front + v.post.value;
    assert Print(v) == v.base + (Letters(Alpha) + (v.pre + (".post" + v.post.value)));
  }

  lemma StageSubstituted(v: Version, stage: Stage)
    requires Valid(v) && v.stage.Some? && v.post.None?
    ensures SubstituteHotfix(Release(v)) == Release(v)
    ensures Substitute(Release(v), stage) == if stage == v.stage.value then Print(v) else Release(v)
  {
    hide IsBase, Front, Tail, DigitsAtEnd, BeforeName, Cut, Ends, StageName;
    NamedEnds(v.base, v.stage.value, v.pre);
    if stage == v.stage.value {
      assert Print(v) == v.base + (Letters(stage) + v.pre);
    } else {
      OtherName(v.base, v.stage.value, stage);
    }
  }

  /** A release version is brought back to the normal form it was printed from. */
  lemma ReleaseReads(v: Version)
    requires Valid(v)
    ensures Substituted(Release(v)) == Print(v)
  {
    hide Valid, Print, Substitute, SubstituteHotfix, Release;
    NormalStays(v);
    if v.stage.Some? && v.post.None? {
      StageSubstituted(v, Alpha);
      StageSubstituted(v, Beta);
      StageSubstituted(v, Candidate);
      NormalIsLeft(v, Beta);
      NormalIsLeft(v, Candidate);
    } else if v.stage == Some(Alpha) && v.post.Some? {
      HotfixRead(v);
    } else {
      ReleaseIsPrint(v);
    }
  }

  lemma ReleaseIsPrint(v: Version)
    requires !(v.stage.Some? && v.post.None?) && !(v.stage == Some(Alpha) && v.post.Some?)
    ensures Release(v) == Print(v)
  {
  }

  /** Both spellings begin and end in a digit. */
  lemma BeginsAndEnds(v: Version)
    requires Valid(v)
    ensures var s := Print(v); s != "" && IsDigit(s[0]) && IsDigit(s[|s| - 1])
    ensures var s := Release(v); s != "" && IsDigit(s[0]) && IsDigit(s[|s| - 1])
  {
    hide IsBase;
    BaseShape(v.base);
    var s, t := Print(v), Release(v);
    assert s[0] == v.base[0] && t[0] == v.base[0];
    var last := if v.post.Some? then v.post.value else if v.stage.Some? then v.pre else v.base;
    assert s[|s| - 1] == last[|last| - 1];
    assert t[|t| - 1] == last[|last| - 1];
  }

  lemma NothingStripped(s: string)
    requires s != "" && !IsSpace(s[0]) && IsDigit(s[|s| - 1])
    ensures Strip(s) == s
  {
  }

  lemma NormalizeIs(text: string, v: Version)
    requires Valid(v) && Substituted(WithoutPrefix(Strip(text))) == Print(v)
    ensures Normalize(text) == Some(Print(v))
  {
    hide Valid, Print, Read, Substitute, SubstituteHotfix, WithoutPrefix, Strip;
    PrintReads(v);
  }

  lemma PrefixTaken(s: string)
    requires s != "" && IsDigit(s[0]) && IsDigit(s[|s| - 1])
    ensures WithoutPrefix(Strip("rust-v" + s)) == s && WithoutPrefix(Strip(s)) == s
  {
    hide Strip;
    var tag := "rust-v" + s;
    assert tag[0] == 'r' && tag[|tag| - 1] == s[|s| - 1];
    NothingStripped(tag);
    NothingStripped(s);
    assert tag[6..] == s;
  }

  /** The normal form of a normal form is itself; the normal form of its release tag is, too. */
  lemma TagReads(v: Version)
    requires Valid(v)
    ensures Normalize(Print(v)) == Some(Print(v))
    ensures Normalize("rust-v" + Release(v)) == Some(Print(v))
  {
    hide Valid, Print, Release, Substituted, Normalize, Strip, WithoutPrefix, IsDigit, Read;
    BeginsAndEnds(v);
    NormalStays(v);
    ReleaseReads(v);
    TextNormalizes(Print(v), v);
    TextNormalizes(Release(v), v);
  }

  /** A text that the substitutions bring to a normal form has it, with a tag's prefix or without. */
  lemma TextNormalizes(s: string, v: Version)
    requires Valid(v) && s != "" && IsDigit(s[0]) && IsDigit(s[|s| - 1]) && Substituted(s) == Print(v)
    ensures Normalize(s) == Some(Print(v)) && Normalize("rust-v" + s) == Some(Print(v))
  {
    hide Valid, Print, Substituted, Normalize, Strip, WithoutPrefix, IsDigit;
    PrefixTaken(s);
    NormalizeIs(s, v);
    NormalizeIs("rust-v" + s, v);
  }

  lemma NormalIsRead(text: string)
    requires Normalize(text).Some?
    ensures Read(Normalize(text).value).Some?
  {
  }

  /**
   For every text that has a normal form: the normal form is its own, and the text's release tag has it, too.
   So two such texts share a tag exactly when they share the normal form.
   */
  lemma NormalFormIsStable(text: string)
    ensures Normalize(text).Some? ==>
              && Normalize(Normalize(text).value) == Normalize(text)
              && Tag(text).Some? && Normalize(Tag(text).value) == Normalize(text)
  {
    hide Read, Normalize, Release, Print, Valid;
    if Normalize(text).Some? {
      var normal := Normalize(text).value;
      NormalIsRead(text);
      ReadIsPrinted(normal);
      TagReads(Read(normal).value);
    }
  }

  lemma SameTagSameNormalForm(a: string, b: string)
    ensures Normalize(a).Some? && Normalize(b).Some? ==> (Tag(a) == Tag(b) <==> Normalize(a) == Normalize(b))
  {
    hide Normalize, Release;
    NormalFormIsStable(a);
    NormalFormIsStable(b);
  }

  // ---------------------------------------------------------------------------------------------
  // The spellings themselves
  // ---------------------------------------------------------------------------------------------

  /** Without the dot, a stage's name and number are found as well. */
  lemma UndottedEnds(base: string, stage: Stage, number: string)
    requires IsDigits(number)
    ensures var front := base + StageName(stage);
            && Front(front + number) == front && Tail(front + number) == number && number != ""
            && !Ends(front, ".") && BeforeName(front, stage) == Some(base)
  {
    var name := StageName(stage);
    var front := base + name;
    assert front[|front| - 1] == name[|name| - 1];
    SplitDigits(front, number);
    EndsConcat(base, name);
    LastCharacter(front, ".");
    LastCharacter(front, name + ".");
  }

  lemma EndsSame(s: string, mark: string)
    requires Ends(s, mark) && mark != ""
    ensures s[|s| - 1] == mark[|mark| - 1]
  {
    assert s[|s| - |mark|..][|mark| - 1] == s[|s| - 1];
  }

  lemma LastCharacter(s: string, mark: string)
    requires s != "" && mark != "" && s[|s| - 1] != mark[|mark| - 1]
    ensures !Ends(s, mark)
  {
    if Ends(s, mark) {
      EndsSame(s, mark);
    }
  }

  lemma NamesEnd(stage: Stage, other: Stage)
    ensures |StageName(stage)| >= 3 && StageName(stage)[|StageName(stage)| - 1] != '.'
    ensures stage != other ==>
              var mine, theirs := StageName(stage), StageName(other);
              mine[|mine| - 1] != theirs[|theirs| - 1] || mine[|mine| - 2] != theirs[|theirs| - 2]
  {
    match other {
      case Alpha =>
      case Beta =>
      case Candidate =>
    }
  }

  lemma OtherUndotted(base: string, stage: Stage, other: Stage)
    requires stage != other
    ensures BeforeName(base + StageName(stage), other) == None
  {
    hide StageName, Ends;
    NamesEnd(stage, other);
    NamesEnd(other, stage);
    var mine, theirs := StageName(stage), StageName(other);
    var front := base + mine;
    assert front[|front| - 1] == mine[|mine| - 1] && front[|front| - 2] == mine[|mine| - 2];
    LastCharacter(front, theirs + ".");
    if Ends(front, theirs) {
      EndsAlike(front, theirs);
    }
  }

  lemma UndottedSubstituted(v: Version, stage: Stage)
    requires Valid(v) && v.stage.Some? && v.post.None?
    ensures var s := v.base + StageName(v.stage.value) + v.pre;
            && SubstituteHotfix(s) == s
            && Substitute(s, stage) == if stage == v.stage.value then Print(v) else s
  {
    hide IsBase, Front, Tail, DigitsAtEnd, BeforeName, Cut, Ends, StageName;
    UndottedEnds(v.base, v.stage.value, v.pre);
    if stage == v.stage.value {
      assert Print(v) == v.base + (Letters(stage) + v.pre);
    } else {
      OtherUndotted(v.base, v.stage.value, stage);
    }
  }

  lemma UndottedReads(v: Version)
    requires Valid(v) && v.stage.Some? && v.post.None?
    ensures Substituted(v.base + StageName(v.stage.value) + v.pre) == Print(v)
  {
    hide Valid, Print, Substitute, SubstituteHotfix, StageName;
    UndottedSubstituted(v, Alpha);
    UndottedSubstituted(v, Beta);
    UndottedSubstituted(v, Candidate);
    NormalIsLeft(v, Beta);
    NormalIsLeft(v, Candidate);
  }

  lemma UndottedBegins(v: Version)
    requires Valid(v) && v.stage.Some? && v.post.None?
    ensures var s := v.base + StageName(v.stage.value) + v.pre; s != "" && IsDigit(s[0]) && IsDigit(s[|s| - 1])
  {
    hide IsBase;
    BaseShape(v.base);
    var s := v.base + StageName(v.stage.value) + v.pre;
    assert s[0] == v.base[0] && s[|s| - 1] == v.pre[|v.pre| - 1];
  }

  /** What a version's texts come to. */
  lemma VersionSpelled(v: Version)
    requires Valid(v)
    ensures Normalize(Print(v)) == Some(Print(v)) && Normalize(Release(v)) == Some(Print(v))
    ensures Tag(Print(v)) == Some("rust-v" + Release(v))
    ensures v.stage.Some? && v.post.None? ==> Normalize(v.base + StageName(v.stage.value) + v.pre) == Some(Print(v))
  {
    hide Valid, Print, Release, Substituted, Normalize, Strip, WithoutPrefix, Read, StageName;
    TagReads(v);
    PrintReads(v);
    BeginsAndEnds(v);
    ReleaseReads(v);
    PrefixTaken(Release(v));
    NormalizeIs(Release(v), v);
    if v.stage.Some? && v.post.None? {
      UndottedReads(v);
      UndottedBegins(v);
      PrefixTaken(v.base + StageName(v.stage.value) + v.pre);
      NormalizeIs(v.base + StageName(v.stage.value) + v.pre, v);
    }
  }

  /** The letters and the name of a stage. */
  predicate Spelled(stage: Stage, letters: string, name: string)
  {
    match stage
    case Alpha => letters == "a" && name == "-alpha"
    case Beta => letters == "b" && name == "-beta"
    case Candidate => letters == "rc" && name == "-rc"
  }

  /** A pre-release: `1.2.3-beta.4`, `1.2.3-beta4` and `1.2.3b4` are the same, tagged `rust-v1.2.3-beta.4`. */
  lemma StageSpelled(base: string, stage: Stage, letters: string, name: string, number: string)
    requires IsBase(base) && IsDigits(number) && Spelled(stage, letters, name)
    ensures Normalize(base + letters + number) == Some(base + letters + number)
    ensures Normalize(base + name + "." + number) == Some(base + letters + number)
    ensures Normalize(base + name + number) == Some(base + letters + number)
    ensures Tag(base + letters + number) == Some("rust-v" + (base + name + "." + number))
  {
    hide IsBase, Normalize, Tag, Substituted;
    var v := Version(base, Some(stage), number, None);
    VersionSpelled(v);
    assert Print(v) == base + letters + number;
    assert Release(v) == base + name + "." + number;
  }

  /** An alpha's hotfix: `1.2.3-alpha.4.5` is `1.2.3a4.post5`, and the other way round in its tag. */
  lemma HotfixSpelled(base: string, number: string, hotfix: string)
    requires IsBase(base) && IsDigits(number) && IsDigits(hotfix)
    ensures Normalize(base + "-alpha." + number + "." + hotfix) == Some(base + "a" + number + ".post" + hotfix)
    ensures Tag(base + "a" + number + ".post" + hotfix) == Some("rust-v" + (base + "-alpha." + number + "." + hotfix))
  {
    hide IsBase, Normalize, Tag, Substituted;
    var v := Version(base, Some(Alpha), number, Some(hotfix));
    VersionSpelled(v);
    assert Print(v) == base + "a" + number + ".post" + hotfix;
    assert Release(v) == base + "-alpha." + number + "." + hotfix;
  }

  /** Numbers with dots between them are their own normal form, and their own tag behind its prefix. */
  lemma NumbersSpelled(base: string, number: string)
    requires IsDigits(number) && (base == "" || IsBase(base))
    ensures var s := if base == "" then number else base + "." + number;
            IsBase(s) && Normalize(s) == Some(s) && Tag(s) == Some("rust-v" + s)
  {
    hide Normalize, Tag, Substituted;
    var s := if base == "" then number else base + "." + number;
    BaseGrows(base, number);
    var v := Version(s, None, "", None);
    VersionSpelled(v);
    assert Print(v) == s && Release(v) == s;
  }

  lemma BaseGrows(base: string, number: string)
    requires IsDigits(number) && (base == "" || IsBase(base))
    ensures IsBase(if base == "" then number else base + "." + number)
  {
    hide IsDigits;
    DigitsSay(number);
    if base == "" {
      SplitDigits("", number);
      assert "" + number == number;
    } else {
      SplitDigits(base + ".", number);
      EndsConcat(base, ".");
      assert Cut(base + ".", 1) == base;
    }
  }

  /** Other post-releases are spelled alike in the normal form and in the tag. */
  lemma PostSpelled(base: string, stage: Stage, letters: string, name: string, number: string, post: string)
    requires IsBase(base) && IsDigits(number) && IsDigits(post) && Spelled(stage, letters, name)
    ensures var s := base + ".post" + post; Normalize(s) == Some(s) && Tag(s) == Some("rust-v" + s)
    ensures var s := base + letters + number + ".post" + post;
            Normalize(s) == Some(s) && (stage != Alpha ==> Tag(s) == Some("rust-v" + s))
  {
    hide IsBase, Normalize, Tag, Substituted;
    var plain := Version(base, None, "", Some(post));
    var staged := Version(base, Some(stage), number, Some(post));
    VersionSpelled(plain);
    VersionSpelled(staged);
    assert Print(plain) == base + ".post" + post && Release(plain) == Print(plain);
    assert Print(staged) == base + letters + number + ".post" + post;
  }

  /** The prefix of a tag, a lone `v`, and whitespace in front change nothing. */
  lemma PrefixIrrelevant(s: string, c: char)
    requires s != "" && IsDigit(s[0]) && IsDigit(s[|s| - 1]) && IsSpace(c)
    ensures Normalize("rust-v" + s) == Normalize(s) && Normalize("v" + s) == Normalize(s)
    ensures Normalize([c] + s) == Normalize(s)
  {
    hide Substituted, Read;
    PrefixTaken(s);
    var tag := "v" + s;
    assert tag[0] == 'v' && tag[|tag| - 1] == s[|s| - 1] && tag[1..] == s;
    NothingStripped(tag);
    assert ([c] + s)[1..] == s;
  }
}
