/** Splitting text at whitespace and joining it with single spaces. What counts as whitespace is a parameter. */
module Words {

  predicate IsWord(word: string, space: char -> bool)
  {
    word != "" && forall i :: 0 <= i < |word| ==> !space(word[i])
  }

  /** The length of the run without whitespace at the front. */
  function WordLength(s: string, space: char -> bool): (n: nat)
    ensures n <= |s|
    ensures forall i :: 0 <= i < n ==> !space(s[i])
    ensures n < |s| ==> space(s[n])
  {
    if s == "" || space(s[0]) then 0 else 1 + WordLength(s[1..], space)
  }

  /** The words of a text. */
  function WordsOf(s: string, space: char -> bool): seq<string>
    decreases |s|
  {
    if s == "" then []
    else if space(s[0]) then WordsOf(s[1..], space)
    else
      var n := WordLength(s, space);
      [s[..n]] + WordsOf(s[n..], space)
  }

  function Joined(words: seq<string>): string
  {
    if words == [] then "" else if |words| == 1 then words[0] else words[0] + (" " + Joined(words[1..]))
  }

  lemma {:induction false} AreWords(s: string, space: char -> bool)
    ensures forall w :: w in WordsOf(s, space) ==> IsWord(w, space)
    decreases |s|
  {
    if s != "" {
      if space(s[0]) {
        AreWords(s[1..], space);
      } else {
        AreWords(s[WordLength(s, space)..], space);
      }
    }
  }

  lemma {:induction false} WordTaken(word: string, rest: string, space: char -> bool)
    requires IsWord(word, space) && (rest == "" || space(rest[0]))
    ensures WordLength(word + rest, space) == |word|
  {
    if |word| == 1 {
      assert (word + rest)[1..] == rest;
    } else {
      assert (word + rest)[1..] == word[1..] + rest;
      WordTaken(word[1..], rest, space);
    }
  }

  lemma FirstWord(word: string, rest: string, space: char -> bool)
    requires IsWord(word, space) && (rest == "" || space(rest[0]))
    ensures WordsOf(word + rest, space) == [word] + WordsOf(rest, space)
  {
    WordTaken(word, rest, space);
    assert (word + rest)[..|word|] == word && (word + rest)[|word|..] == rest;
  }

  /** Joined words are split back into the same words. */
  lemma {:induction false} JoinedSplits(words: seq<string>, space: char -> bool)
    requires space(' ') && forall w :: w in words ==> IsWord(w, space)
    ensures WordsOf(Joined(words), space) == words
  {
    if words != [] {
      assert words[0] in words;
      if |words| == 1 {
        FirstWord(words[0], "", space);
        assert words[0] + "" == words[0];
      } else {
        var rest := " " + Joined(words[1..]);
        JoinedSplits(words[1..], space);
        FirstWord(words[0], rest, space);
        assert rest[1..] == Joined(words[1..]);
        assert words == [words[0]] + words[1..];
      }
    }
  }

  /** Joining the words of a text with single spaces keeps its words, and doing it again changes nothing. */
  lemma SpacingIsIdempotent(s: string, space: char -> bool)
    requires space(' ')
    ensures WordsOf(Joined(WordsOf(s, space)), space) == WordsOf(s, space)
  {
    AreWords(s, space);
    JoinedSplits(WordsOf(s, space), space);
  }

  /** Whitespace at this place is a single space between words. */
  predicate SpacedAt(s: string, i: nat, space: char -> bool)
    requires i < |s|
  {
    space(s[i]) ==> s[i] == ' ' && 0 < i < |s| - 1 && !space(s[i - 1]) && !space(s[i + 1])
  }

  ghost predicate Spaced(s: string, space: char -> bool)
  {
    forall i {:trigger SpacedAt(s, i, space)} :: 0 <= i < |s| ==> SpacedAt(s, i, space)
  }

  lemma {:induction false} JoinedIsSpaced(words: seq<string>, space: char -> bool)
    requires forall w :: w in words ==> IsWord(w, space)
    ensures Spaced(Joined(words), space)
    ensures words != [] ==> Joined(words) != "" && !space(Joined(words)[0])
  {
    if words != [] {
      assert words[0] in words;
      if |words| > 1 {
        assert forall w :: w in words[1..] ==> w in words;
        JoinedIsSpaced(words[1..], space);
        BehindIsSpaced(words[0], Joined(words[1..]), space);
      }
    }
  }

  lemma BehindIsSpaced(word: string, rest: string, space: char -> bool)
    requires IsWord(word, space) && Spaced(rest, space) && rest != "" && !space(rest[0])
    ensures Spaced(word + (" " + rest), space)
  {
    var s := word + (" " + rest);
    forall i | 0 <= i < |s| ensures SpacedAt(s, i, space) {
      if i > |word| {
        assert SpacedAt(rest, i - |word| - 1, space);
      }
    }
  }

  lemma RestSpacedAt(s: string, n: nat, i: nat, space: char -> bool)
    requires n + 1 + i < |s| && SpacedAt(s, n + 1 + i, space) && !space(s[n + 1])
    ensures SpacedAt(s[n + 1..], i, space)
  {
  }

  /** A text spaced singly, after one of its spaces. */
  lemma SpacedBehind(s: string, n: nat, space: char -> bool)
    requires Spaced(s, space) && n < |s| && space(s[n])
    ensures s[n] == ' ' && 0 < n && n + 1 < |s| && !space(s[n + 1]) && Spaced(s[n + 1..], space)
  {
    assert SpacedAt(s, n, space);
    var rest := s[n + 1..];
    hide SpacedAt;
    forall i | 0 <= i < |rest| ensures SpacedAt(rest, i, space) {
      assert SpacedAt(s, n + 1 + i, space);
      RestSpacedAt(s, n, i, space);
    }
  }

  lemma CutAtSpace(s: string, n: nat)
    requires n < |s| && s[n] == ' '
    ensures s == s[..n] + (" " + s[n + 1..])
  {
  }

  lemma FrontIsWord(s: string, space: char -> bool)
    requires 0 < WordLength(s, space)
    ensures IsWord(s[..WordLength(s, space)], space)
  {
    hide WordLength;
  }

  lemma JoinedMore(word: string, words: seq<string>)
    requires words != []
    ensures Joined([word] + words) == word + (" " + Joined(words))
  {
    assert ([word] + words)[1..] == words;
  }

  lemma SpaceSkipped(rest: string, space: char -> bool)
    requires space(' ')
    ensures WordsOf(" " + rest, space) == WordsOf(rest, space)
  {
    assert (" " + rest)[1..] == rest;
  }

  /** A text spaced singly is its words joined. */
  lemma {:induction false} SpacedIsJoined(s: string, space: char -> bool)
    requires Spaced(s, space)
    ensures Joined(WordsOf(s, space)) == s
    decreases |s|
  {
    hide Joined, WordsOf, Spaced, WordLength;
    if s == "" {
      NoWords(space);
    } else if WordLength(s, space) == |s| {
      OneWord(s, space);
    } else {
      var n := WordLength(s, space);
      var rest := s[n + 1..];
      SpacedBehind(s, n, space);
      FrontIsWord(s, space);
      CutAtSpace(s, n);
      SpacedIsJoined(rest, space);
      WordIsThere(rest, space);
      FirstWord(s[..n], " " + rest, space);
      SpaceSkipped(rest, space);
      JoinedMore(s[..n], WordsOf(rest, space));
    }
  }

  lemma NoWords(space: char -> bool)
    ensures Joined(WordsOf("", space)) == ""
  {
  }

  lemma OneWord(s: string, space: char -> bool)
    requires s != "" && WordLength(s, space) == |s|
    ensures Joined(WordsOf(s, space)) == s
  {
    assert s[..|s|] == s && WordsOf(s[|s|..], space) == [];
  }

  lemma WordIsThere(s: string, space: char -> bool)
    requires s != "" && !space(s[0])
    ensures WordsOf(s, space) != []
  {
  }
}
