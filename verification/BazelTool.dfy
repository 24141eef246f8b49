/** The loops of the MODULE.bazel tool: finding the version's blocks, checking them, rewriting them. */
module BazelTool {
  import opened Common
  import opened BazelLines
  import opened BazelBlocks
  import opened BazelModule
  import opened BazelRewrite

  /** A block of the version, where it stands, and the fields read from it. */
  datatype Found = Found(start: int, end: int, body: seq<string>, name: string, path: string, sha: Option<string>)

  datatype Error =
    | NoEntries
    | Duplicate(file: string)
    | NotInManifest(name: string)
    | NotInModule(file: string)
    | MissingSha(name: string)
    | WrongSha(name: string, sha: string, expected: string)

  datatype Failure = MissingPath | EntrySet(errors: set<Error>) | NoPlace | Drift(errors: set<Error>, shas: seq<Error>)

  // ---------------------------------------------------------------------------------------------
  // Finding the blocks
  // ---------------------------------------------------------------------------------------------

  function FoundIn(segment: Segment, at: int, prefix: string): seq<Found>
  {
    if !Versioned(segment, prefix) then []
    else [Found(at, at + |segment.body| + 2, segment.body, StringField(segment.body, Name).value, PathOf(segment),
                StringField(segment.body, Sha))]
  }

  /** The version's blocks among segments that begin at line `at`. */
  function Located(segments: seq<Segment>, at: int, prefix: string): seq<Found>
  {
    if segments == [] then []
    else FoundIn(segments[0], at, prefix) + Located(segments[1..], at + |Lines(segments[0])|, prefix)
  }

  lemma LocatedPrepended(segment: Segment, segments: seq<Segment>, at: int, prefix: string)
    ensures Located([segment] + segments, at, prefix)
         == FoundIn(segment, at, prefix) + Located(segments, at + |Lines(segment)|, prefix)
    ensures PathsPresent([segment] + segments, prefix)
       <==> (Versioned(segment, prefix) ==> StringField(segment.body, FilePath).Some?) && PathsPresent(segments, prefix)
  {
    hide FoundIn, Versioned, StringField, Lines;
    var all := [segment] + segments;
    assert all[1..] == segments;
    assert forall i :: 0 <= i < |segments| ==> all[i + 1] == segments[i];
    assert all[0] == segment;
  }

  /** What the scan meets at line `i`. */
  lemma ScanNext(lines: seq<string>, i: nat)
    requires i < |lines|
    ensures var rest := lines[i + 1..];
            var c := First(rest, IsClose);
            Parse(lines[i..]) ==
              if lines[i] == OpenLine() && c < |rest|
              then [Block(rest[..c], rest[c])] + Parse(lines[i + c + 2..])
              else [Outside(lines[i])] + Parse(rest)
  {
    hide First, Passes, OpenLine;
    var from, rest := lines[i..], lines[i + 1..];
    assert from[0] == lines[i] && from[1..] == rest;
    var c := First(rest, IsClose);
    assert c < |rest| ==> rest[c + 1..] == lines[i + c + 2..];
  }

  /** The scan has come to line `i` with these entries. */
  ghost predicate ScannedTo(lines: seq<string>, i: int, entries: seq<Found>, prefix: string)
  {
    && 0 <= i <= |lines|
    && entries + Located(Parse(lines[i..]), i, prefix) == Located(Parse(lines), 0, prefix)
    && (PathsPresent(Parse(lines), prefix) <==> PathsPresent(Parse(lines[i..]), prefix))
  }

  lemma ScanLine(lines: seq<string>, i: nat, entries: seq<Found>, prefix: string)
    requires i < |lines| && ScannedTo(lines, i, entries, prefix)
    requires lines[i] != OpenLine() || !Has(lines[i + 1..], IsClose)
    ensures ScannedTo(lines, i + 1, entries, prefix)
  {
    hide First, Passes, OpenLine, Parse, Located, PathsPresent, StringField;
    ScanNext(lines, i);
    LocatedPrepended(Outside(lines[i]), Parse(lines[i + 1..]), i, prefix);
  }

  lemma BlockLength(block: Segment)
    requires block.Block?
    ensures |Lines(block)| == |block.body| + 2
  {
  }

  lemma ScanBlock(lines: seq<string>, i: nat, entries: seq<Found>, prefix: string, block: Segment, next: nat)
    requires i < next <= |lines| && ScannedTo(lines, i, entries, prefix)
    requires block.Block? && next == i + |block.body| + 2 && Parse(lines[i..]) == [block] + Parse(lines[next..])
    ensures if Versioned(block, prefix) && StringField(block.body, FilePath).None?
            then !PathsPresent(Parse(lines), prefix)
            else ScannedTo(lines, next, entries + FoundIn(block, i, prefix), prefix)
  {
    hide First, Passes, OpenLine, Parse, Located, PathsPresent, StringField, Versioned, FoundIn, Lines;
    LocatedPrepended(block, Parse(lines[next..]), i, prefix);
    BlockLength(block);
    Associated(entries, FoundIn(block, i, prefix), Located(Parse(lines[next..]), next, prefix));
  }

  lemma ScanStarts(lines: seq<string>, prefix: string)
    ensures ScannedTo(lines, 0, [], prefix)
  {
    hide Located, Parse, PathsPresent;
    assert lines[0..] == lines;
  }

  lemma ScanEnds(lines: seq<string>, entries: seq<Found>, prefix: string)
    requires ScannedTo(lines, |lines|, entries, prefix)
    ensures PathsPresent(Parse(lines), prefix) && entries == Located(Parse(lines), 0, prefix)
  {
    hide First, Passes, OpenLine, Versioned, StringField;
    assert lines[|lines|..] == [];
    assert entries + [] == entries;
  }

  /** The scan: it fails exactly when a block of the version has no path, and else finds them all. */
  method HttpFiles(lines: seq<string>, prefix: string) returns (found: Option<seq<Found>>)
    ensures found.Some? <==> PathsPresent(Parse(lines), prefix)
    ensures found.Some? ==> found.value == Located(Parse(lines), 0, prefix)
    ensures found.Some? ==> exists at :: Lists(Parse(lines), prefix, at, found.value)
  {
    hide Lists, First, Passes, OpenLine, ScannedTo, PathsPresent, Versioned, StringField, Parse, Located;
    var entries: seq<Found>, i := [], 0;
    ScanStarts(lines, prefix);
    while i < |lines|
      invariant 0 <= i <= |lines| && ScannedTo(lines, i, entries, prefix)
    {
      var rest := lines[i + 1..];
      var c := First(rest, IsClose);
      if lines[i] == OpenLine() && c < |rest| {
        var block := Block(rest[..c], rest[c]);
        ScanNext(lines, i);
        ScanBlock(lines, i, entries, prefix, block, i + c + 2);
        if Versioned(block, prefix) && StringField(block.body, FilePath).None? {
          return None;
        }
        entries := entries + FoundIn(block, i, prefix);
        i := i + c + 2;
      } else {
        ScanLine(lines, i, entries, prefix);
        i := i + 1;
      }
    }
    ScanEnds(lines, entries, prefix);
    ghost var places := LocatedLists(Parse(lines), 0, prefix);
    return Some(entries);
  }

  // ---------------------------------------------------------------------------------------------
  // What was found
  // ---------------------------------------------------------------------------------------------

  /** The entry holds the fields the block is read with. */
  ghost predicate Reads(entry: Found, segment: Segment)
  {
    && segment.Block? && entry.body == segment.body
    && StringField(segment.body, Name) == Some(entry.name)
    && StringField(segment.body, FilePath) == Some(entry.path)
    && StringField(segment.body, Sha) == entry.sha
  }

  /** The entries are the blocks whose name begins with the prefix, all of them, in order. */
  ghost predicate Lists(segments: seq<Segment>, prefix: string, at: seq<int>, entries: seq<Found>)
  {
    && Places(at, |segments|) && |at| == |entries|
    && (forall i {:trigger segments[i]} :: 0 <= i < |segments| ==>
          (i in at <==> && segments[i].Block? && StringField(segments[i].body, Name).Some?
                        && prefix <= StringField(segments[i].body, Name).value))
    && (forall j :: 0 <= j < |at| ==> Reads(entries[j], segments[at[j]]))
  }

  lemma ListsSkip(segment: Segment, segments: seq<Segment>, prefix: string, at: seq<int>, entries: seq<Found>)
    requires Lists(segments, prefix, at, entries) && !Versioned(segment, prefix)
    ensures Lists([segment] + segments, prefix, Shifted(at), entries)
  {
    hide StringField, Reads;
    var all, moved := [segment] + segments, Shifted(at);
    forall i | 0 <= i < |all| ensures i in moved <==> Versioned(all[i], prefix) {
      InShifted(at, i);
      if i > 0 {
        assert all[i] == segments[i - 1];
      }
    }
  }

  lemma ListsTake(segment: Segment, segments: seq<Segment>, prefix: string, at: seq<int>, entry: Found,
                  entries: seq<Found>)
    requires Lists(segments, prefix, at, entries) && Versioned(segment, prefix) && Reads(entry, segment)
    ensures Lists([segment] + segments, prefix, [0] + Shifted(at), [entry] + entries)
  {
    hide StringField, Reads;
    var all, moved, more := [segment] + segments, [0] + Shifted(at), [entry] + entries;
    forall i | 0 <= i < |all| ensures i in moved <==> Versioned(all[i], prefix) {
      InShifted(at, i);
      InPrepended(0, Shifted(at), i);
      if i > 0 {
        assert all[i] == segments[i - 1];
      }
    }
    forall j | 0 <= j < |moved| ensures Reads(more[j], all[moved[j]]) {
      if j > 0 {
        assert all[moved[j]] == segments[at[j - 1]] && more[j] == entries[j - 1];
      }
    }
  }

  function Shifted(at: seq<int>): seq<int>
  {
    seq(|at|, j requires 0 <= j < |at| => at[j] + 1)
  }

  lemma InShifted(at: seq<int>, i: int)
    ensures i in Shifted(at) <==> i - 1 in at
  {
    if i - 1 in at {
      var j :| 0 <= j < |at| && at[j] == i - 1;
      assert Shifted(at)[j] == i;
    }
  }

  lemma InPrepended(n: int, at: seq<int>, i: int)
    ensures i in [n] + at <==> i == n || i in at
  {
    var all := [n] + at;
    assert all[0] == n;
    if i in at {
      var j :| 0 <= j < |at| && at[j] == i;
      assert all[j + 1] == i;
    }
  }

  lemma FoundReads(segment: Segment, at: int, prefix: string)
    requires Versioned(segment, prefix) && StringField(segment.body, FilePath).Some?
    ensures |FoundIn(segment, at, prefix)| == 1 && Reads(FoundIn(segment, at, prefix)[0], segment)
  {
    hide StringField;
  }

  /** The entries found are the blocks of the version, in order. */
  lemma {:induction false} LocatedLists(segments: seq<Segment>, at: int, prefix: string) returns (places: seq<int>)
    requires PathsPresent(segments, prefix)
    ensures Lists(segments, prefix, places, Located(segments, at, prefix))
  {
    hide Versioned, StringField, FoundIn, Lines, Lists, Reads;
    if segments == [] {
      places := [];
      NothingListed(prefix);
    } else {
      var segment, rest, next := segments[0], segments[1..], at + |Lines(segments[0])|;
      assert segments == [segment] + rest;
      LocatedPrepended(segment, rest, at, prefix);
      places := LocatedLists(rest, next, prefix);
      if Versioned(segment, prefix) {
        FoundReads(segment, at, prefix);
        var found := FoundIn(segment, at, prefix);
        assert found == [found[0]];
        ListsTake(segment, rest, prefix, places, found[0], Located(rest, next, prefix));
        places := [0] + Shifted(places);
      } else {
        NotFound(segment, at, prefix);
        ListsSkip(segment, rest, prefix, places, Located(rest, next, prefix));
        assert [] + Located(rest, next, prefix) == Located(rest, next, prefix);
        places := Shifted(places);
      }
    }
  }

  lemma NothingListed(prefix: string)
    ensures Lists([], prefix, [], [])
  {
  }

  lemma NotFound(segment: Segment, at: int, prefix: string)
    requires !Versioned(segment, prefix)
    ensures FoundIn(segment, at, prefix) == []
  {
  }

  // ---------------------------------------------------------------------------------------------
  // The error collectors
  // ---------------------------------------------------------------------------------------------

  function PathsIn(entries: seq<Found>): seq<string>
  {
    seq(|entries|, i requires 0 <= i < |entries| => entries[i].path)
  }

  /** The names of the files' last entries. */
  function Named(entries: seq<Found>): map<string, string>
  {
    if entries == [] then map[]
    else Named(entries[..|entries| - 1])[entries[|entries| - 1].path := entries[|entries| - 1].name]
  }

  /** The files with more than one entry. */
  function Repeated(entries: seq<Found>): set<string>
  {
    if entries == [] then {}
    else
      var fewer, file := entries[..|entries| - 1], entries[|entries| - 1].path;
      Repeated(fewer) + if file in Named(fewer) then {file} else {}
  }

  function EntryErrors(entries: seq<Found>, checksums: Checksums): set<Error>
  {
    if entries == [] then {NoEntries}
    else
      var names := Named(entries);
      (set file | file in Repeated(entries) :: Duplicate(file))
      + (set file | file in names.Keys - checksums.Keys :: NotInManifest(names[file]))
      + (set file | file in checksums.Keys - names.Keys :: NotInModule(file))
  }

  /** The entry set's errors. */
  method EntrySetErrors(entries: seq<Found>, checksums: Checksums) returns (errors: set<Error>)
    ensures errors == EntryErrors(entries, checksums)
  {
    if entries == [] {
      return {NoEntries};
    }
    var names: map<string, string>, duplicates: set<string> := map[], {};
    for i := 0 to |entries|
      invariant names == Named(entries[..i]) && duplicates == Repeated(entries[..i])
    {
      assert entries[..i + 1][..i] == entries[..i];
      var file := entries[i].path;
      if file in names {
        duplicates := duplicates + {file};
      }
      names := names[file := entries[i].name];
    }
    assert entries[..|entries|] == entries;
    errors := (set file | file in duplicates :: Duplicate(file))
      + (set file | file in names.Keys - checksums.Keys :: NotInManifest(names[file]))
      + (set file | file in checksums.Keys - names.Keys :: NotInModule(file));
  }

  lemma {:induction false} NamedMeans(entries: seq<Found>, file: string)
    ensures file in Named(entries) <==> exists i :: 0 <= i < |entries| && entries[i].path == file
  {
    if entries != [] {
      var fewer := entries[..|entries| - 1];
      NamedMeans(fewer, file);
      assert forall i :: 0 <= i < |fewer| ==> fewer[i] == entries[i];
    }
  }

  lemma {:induction false} RepeatedMeans(entries: seq<Found>, file: string)
    ensures file in Repeated(entries)
       <==> exists i, j :: 0 <= i < j < |entries| && entries[i].path == file && entries[j].path == file
  {
    if entries != [] {
      var fewer := entries[..|entries| - 1];
      RepeatedMeans(fewer, file);
      NamedMeans(fewer, file);
      assert forall i :: 0 <= i < |fewer| ==> fewer[i] == entries[i];
    }
  }

  lemma NoErrorSets(entries: seq<Found>, checksums: Checksums)
    requires entries != []
    ensures EntryErrors(entries, checksums) == {} <==> Repeated(entries) == {} && Named(entries).Keys == checksums.Keys
  {
    hide Named, Repeated;
    var errors, names := EntryErrors(entries, checksums), Named(entries);
    if file :| file in Repeated(entries) {
      assert Duplicate(file) in errors;
    }
    if file :| file in names.Keys && file !in checksums.Keys {
      assert file in names.Keys - checksums.Keys;
      assert NotInManifest(names[file]) in errors;
    }
    if file :| file in checksums.Keys && file !in names.Keys {
      assert file in checksums.Keys - names.Keys;
      assert NotInModule(file) in errors;
    }
  }

  lemma NoRepeats(entries: seq<Found>)
    ensures var paths := PathsIn(entries);
            Repeated(entries) == {} <==> forall i, j :: 0 <= i < j < |paths| ==> paths[i] != paths[j]
  {
    hide Repeated;
    var paths := PathsIn(entries);
    assert forall i :: 0 <= i < |paths| ==> paths[i] == entries[i].path;
    if file :| file in Repeated(entries) {
      RepeatedMeans(entries, file);
    }
    if i, j :| 0 <= i < j < |paths| && paths[i] == paths[j] {
      RepeatedMeans(entries, entries[i].path);
    }
  }

  lemma NamedFiles(entries: seq<Found>)
    ensures forall file :: file in Named(entries).Keys <==> file in PathsIn(entries)
  {
    hide Named;
    var paths := PathsIn(entries);
    forall file ensures file in Named(entries).Keys <==> file in paths {
      NamedMeans(entries, file);
      assert forall i :: 0 <= i < |paths| ==> paths[i] == entries[i].path;
    }
  }

  /** No errors exactly when the files and the manifest name each other, each file once. */
  lemma EntryErrorsMean(entries: seq<Found>, checksums: Checksums)
    ensures EntryErrors(entries, checksums) == {} <==> Matches(PathsIn(entries), checksums)
  {
    if entries != [] {
      hide Named, Repeated, EntryErrors;
      NoErrorSets(entries, checksums);
      NoRepeats(entries);
      NamedFiles(entries);
      var paths := PathsIn(entries);
      assert Named(entries).Keys == checksums.Keys <==> forall file :: file in paths <==> file in checksums;
    }
  }

  /** No later entry has the file of entry `i`. */
  ghost predicate LastOf(entries: seq<Found>, i: int)
  {
    0 <= i < |entries| && forall j :: i < j < |entries| ==> entries[j].path != entries[i].path
  }

  lemma {:induction false} NamedIsLast(entries: seq<Found>, file: string)
    requires file in Named(entries)
    ensures exists i :: LastOf(entries, i) && entries[i].path == file && entries[i].name == Named(entries)[file]
  {
    var n := |entries| - 1;
    if entries[n].path == file {
      assert LastOf(entries, n);
    } else {
      NamedIsLast(entries[..n], file);
      var i :| LastOf(entries[..n], i) && entries[..n][i].path == file && entries[..n][i].name == Named(entries[..n])[file];
      assert forall j :: 0 <= j < n ==> entries[..n][j] == entries[j];
      assert LastOf(entries, i) && entries[i].path == file && entries[i].name == Named(entries)[file];
    }
  }

  lemma OneLast(entries: seq<Found>, i: int, j: int)
    requires LastOf(entries, i) && LastOf(entries, j) && entries[i].path == entries[j].path
    ensures i == j
  {
  }

  /** What is wrong with the entries as a set, each as it is. */
  ghost predicate EntryReport(errors: set<Error>, entries: seq<Found>, checksums: Checksums)
  {
    if entries == [] then errors == {NoEntries}
    else
      && (forall error :: error in errors ==> error.Duplicate? || error.NotInManifest? || error.NotInModule?)
      && (forall file :: Duplicate(file) in errors <==>
            exists i, j :: 0 <= i < j < |entries| && entries[i].path == file && entries[j].path == file)
      && (forall name :: NotInManifest(name) in errors <==>
            exists i :: LastOf(entries, i) && entries[i].name == name && entries[i].path !in checksums)
      && (forall file :: NotInModule(file) in errors <==>
            file in checksums && !exists i :: 0 <= i < |entries| && entries[i].path == file)
  }

  lemma UnlistedMeans(entries: seq<Found>, checksums: Checksums, name: string)
    requires entries != []
    ensures NotInManifest(name) in EntryErrors(entries, checksums)
       <==> exists i :: LastOf(entries, i) && entries[i].name == name && entries[i].path !in checksums
  {
    hide Named, Repeated;
    var names := Named(entries);
    if file :| file in names.Keys && file !in checksums.Keys && names[file] == name {
      NamedIsLast(entries, file);
    }
    if i :| LastOf(entries, i) && entries[i].name == name && entries[i].path !in checksums {
      LastIsNamed(entries, i);
    }
  }

  lemma LastIsNamed(entries: seq<Found>, i: int)
    requires LastOf(entries, i)
    ensures entries[i].path in Named(entries) && Named(entries)[entries[i].path] == entries[i].name
  {
    hide Named;
    NamedMeans(entries, entries[i].path);
    NamedIsLast(entries, entries[i].path);
    var j :| LastOf(entries, j) && entries[j].path == entries[i].path
          && entries[j].name == Named(entries)[entries[i].path];
    OneLast(entries, i, j);
  }

  lemma EntryErrorsReport(entries: seq<Found>, checksums: Checksums)
    ensures EntryReport(EntryErrors(entries, checksums), entries, checksums)
  {
    if entries != [] {
      var errors, names := EntryErrors(entries, checksums), Named(entries);
      forall file
        ensures Duplicate(file) in errors <==>
                  exists i, j :: 0 <= i < j < |entries| && entries[i].path == file && entries[j].path == file
      {
        RepeatedMeans(entries, file);
      }
      forall name
        ensures NotInManifest(name) in errors <==>
                  exists i :: LastOf(entries, i) && entries[i].name == name && entries[i].path !in checksums
      {
        UnlistedMeans(entries, checksums, name);
      }
      forall file
        ensures NotInModule(file) in errors <==>
                  file in checksums && !exists i :: 0 <= i < |entries| && entries[i].path == file
      {
        NamedMeans(entries, file);
      }
    }
  }

  // ---------------------------------------------------------------------------------------------
  // Checksums
  // ---------------------------------------------------------------------------------------------

  function ShaError(entry: Found, checksums: Checksums): seq<Error>
  {
    if entry.path !in checksums then []
    else if entry.sha.None? then [MissingSha(entry.name)]
    else if entry.sha.value != checksums[entry.path] then [WrongSha(entry.name, entry.sha.value, checksums[entry.path])]
    else []
  }

  function ShaErrors(entries: seq<Found>, checksums: Checksums): seq<Error>
  {
    if entries == [] then []
    else ShaErrors(entries[..|entries| - 1], checksums) + ShaError(entries[|entries| - 1], checksums)
  }

  method ChecksumErrors(entries: seq<Found>, checksums: Checksums) returns (errors: seq<Error>)
    ensures errors == ShaErrors(entries, checksums)
  {
    errors := [];
    for i := 0 to |entries|
      invariant errors == ShaErrors(entries[..i], checksums)
    {
      assert entries[..i + 1][..i] == entries[..i];
      var entry := entries[i];
      if entry.path in checksums {
        if entry.sha.None? {
          errors := errors + [MissingSha(entry.name)];
        } else if entry.sha.value != checksums[entry.path] {
          errors := errors + [WrongSha(entry.name, entry.sha.value, checksums[entry.path])];
        }
      }
    }
    assert entries[..|entries|] == entries;
  }

  /** The entry's file is listed, and the entry does not have the checksum it is listed with. */
  predicate OutOfDate(entry: Found, checksums: Checksums)
  {
    entry.path in checksums && entry.sha != Some(checksums[entry.path])
  }

  /** The error says what the entry lacks, or has instead of what. */
  predicate Blames(error: Error, entry: Found, checksums: Checksums)
  {
    && entry.path in checksums
    && (entry.sha.None? ==> error == MissingSha(entry.name))
    && (entry.sha.Some? ==> error == WrongSha(entry.name, entry.sha.value, checksums[entry.path]))
  }

  /** One error for each stale entry, in order. */
  ghost predicate ShaReport(errors: seq<Error>, entries: seq<Found>, checksums: Checksums, at: seq<int>)
  {
    && Places(at, |entries|) && |at| == |errors|
    && (forall i {:trigger entries[i]} :: 0 <= i < |entries| ==> (i in at <==> OutOfDate(entries[i], checksums)))
    && (forall j :: 0 <= j < |at| ==> Blames(errors[j], entries[at[j]], checksums))
  }

  lemma ShaErrorBlames(entry: Found, checksums: Checksums)
    ensures OutOfDate(entry, checksums) ==>
              |ShaError(entry, checksums)| == 1 && Blames(ShaError(entry, checksums)[0], entry, checksums)
    ensures !OutOfDate(entry, checksums) ==> ShaError(entry, checksums) == []
  {
  }

  lemma ShaReportSkip(errors: seq<Error>, entries: seq<Found>, checksums: Checksums, at: seq<int>, entry: Found)
    requires ShaReport(errors, entries, checksums, at) && !OutOfDate(entry, checksums)
    ensures ShaReport(errors, entries + [entry], checksums, at)
  {
    hide OutOfDate, Blames;
    var more := entries + [entry];
    forall i | 0 <= i < |more| ensures i in at <==> OutOfDate(more[i], checksums) {
      if i < |entries| {
        assert more[i] == entries[i];
      }
    }
  }

  lemma ShaReportTake(errors: seq<Error>, entries: seq<Found>, checksums: Checksums, at: seq<int>, entry: Found,
                      error: Error)
    requires ShaReport(errors, entries, checksums, at) && OutOfDate(entry, checksums) && Blames(error, entry, checksums)
    ensures ShaReport(errors + [error], entries + [entry], checksums, at + [|entries|])
  {
    hide OutOfDate, Blames;
    var more, all := entries + [entry], at + [|entries|];
    forall i | 0 <= i < |more| ensures i in all <==> OutOfDate(more[i], checksums) {
      InAppended(at, |entries|, i);
      if i < |entries| {
        assert more[i] == entries[i];
      }
    }
    forall j | 0 <= j < |all| ensures Blames((errors + [error])[j], more[all[j]], checksums) {
      if j < |at| {
        assert more[at[j]] == entries[at[j]];
      }
    }
  }

  lemma {:induction false} ShaErrorsReport(entries: seq<Found>, checksums: Checksums) returns (at: seq<int>)
    ensures ShaReport(ShaErrors(entries, checksums), entries, checksums, at)
  {
    hide OutOfDate, Blames, ShaError, ShaReport;
    if entries == [] {
      at := [];
      NothingStale(checksums);
    } else {
      var n := |entries| - 1;
      var before, last := entries[..n], entries[n];
      var errors, error := ShaErrors(before, checksums), ShaError(last, checksums);
      at := ShaErrorsReport(before, checksums);
      ShaErrorBlames(last, checksums);
      assert entries == before + [last];
      if OutOfDate(last, checksums) {
        ShaReportTake(errors, before, checksums, at, last, error[0]);
        assert error == [error[0]];
        at := at + [n];
      } else {
        ShaReportSkip(errors, before, checksums, at, last);
        assert errors + [] == errors;
      }
    }
  }

  lemma NothingStale(checksums: Checksums)
    ensures ShaReport([], [], checksums, [])
  {
  }

  /** No errors exactly when every listed file's entry has the manifest's checksum. */
  lemma {:induction false} ShaErrorsMean(entries: seq<Found>, checksums: Checksums, n: nat)
    requires n <= |entries|
    ensures ShaErrors(entries[..n], checksums) == []
       <==> forall i {:trigger entries[i]} :: 0 <= i < n ==> ShaError(entries[i], checksums) == []
  {
    hide ShaError;
    if n > 0 {
      ShaErrorsMean(entries, checksums, n - 1);
      assert entries[..n][..n - 1] == entries[..n - 1];
      var before, last := ShaErrors(entries[..n - 1], checksums), ShaError(entries[n - 1], checksums);
      assert |before + last| == |before| + |last|;
    }
  }

  // ---------------------------------------------------------------------------------------------
  // The checker
  // ---------------------------------------------------------------------------------------------

  lemma {:induction false} LocatedPaths(segments: seq<Segment>, at: int, prefix: string)
    ensures PathsIn(Located(segments, at, prefix)) == Paths(segments, prefix)
  {
    hide Versioned, StringField, PathOf, Lines;
    if segments != [] {
      var next := at + |Lines(segments[0])|;
      LocatedPaths(segments[1..], next, prefix);
      PathsInConcat(FoundIn(segments[0], at, prefix), Located(segments[1..], next, prefix));
    }
  }

  lemma PathsInConcat(a: seq<Found>, b: seq<Found>)
    ensures PathsIn(a + b) == PathsIn(a) + PathsIn(b)
  {
  }

  ghost predicate Right(entry: Found, checksums: Checksums)
  {
    entry.path in checksums && entry.sha == Some(checksums[entry.path])
  }

  lemma {:induction false} LocatedShas(segments: seq<Segment>, at: int, prefix: string, checksums: Checksums)
    ensures (forall entry :: entry in Located(segments, at, prefix) ==> Right(entry, checksums))
       <==> ShasRight(segments, prefix, checksums)
  {
    hide StringField, PathOf, Lines;
    if segments != [] {
      var next := at + |Lines(segments[0])|;
      LocatedShas(segments[1..], next, prefix, checksums);
      FoundRight(segments[0], at, prefix, checksums);
      hide Versioned, FoundIn, Right, ShaRight;
      var here, rest := FoundIn(segments[0], at, prefix), Located(segments[1..], next, prefix);
      assert forall entry :: entry in here + rest <==> entry in here || entry in rest;
      ShasRightFirst(segments, prefix, checksums);
    }
  }

  lemma FoundRight(segment: Segment, at: int, prefix: string, checksums: Checksums)
    ensures (forall entry :: entry in FoundIn(segment, at, prefix) ==> Right(entry, checksums))
       <==> (Versioned(segment, prefix) ==> ShaRight(segment, checksums))
  {
    hide StringField, PathOf;
    var found := FoundIn(segment, at, prefix);
    assert found != [] ==> found[0] in found;
  }

  lemma ShasRightFirst(segments: seq<Segment>, prefix: string, checksums: Checksums)
    requires segments != []
    ensures ShasRight(segments, prefix, checksums)
       <==> (Versioned(segments[0], prefix) ==> ShaRight(segments[0], checksums)) && ShasRight(segments[1..], prefix, checksums)
  {
    hide Versioned, ShaRight;
    var rest := segments[1..];
    assert forall i :: 0 <= i < |rest| ==> rest[i] == segments[i + 1];
    assert forall i :: 0 < i < |segments| ==> segments[i] == rest[i - 1];
  }

  lemma RightIsClean(entries: seq<Found>, checksums: Checksums, i: nat)
    requires i < |entries| && Matches(PathsIn(entries), checksums)
    ensures ShaError(entries[i], checksums) == [] <==> Right(entries[i], checksums)
  {
    assert PathsIn(entries)[i] == entries[i].path;
    assert entries[i].path in PathsIn(entries);
  }

  /** Under a matching entry set, no checksum errors means every block has the manifest's checksum. */
  lemma CleanIsRight(entries: seq<Found>, checksums: Checksums)
    requires Matches(PathsIn(entries), checksums)
    ensures ShaErrors(entries, checksums) == [] <==> forall entry :: entry in entries ==> Right(entry, checksums)
  {
    hide ShaErrors, ShaError, Right, Matches, PathsIn;
    ShaErrorsMean(entries, checksums, |entries|);
    assert entries[..|entries|] == entries;
    forall i | 0 <= i < |entries| ensures ShaError(entries[i], checksums) == [] <==> Right(entries[i], checksums) {
      RightIsClean(entries, checksums, i);
    }
  }

  /** The two lists of errors say what is wrong with the version's blocks. */
  ghost predicate Drifts(segments: seq<Segment>, prefix: string, checksums: Checksums, errors: set<Error>,
                         shas: seq<Error>)
  {
    exists at, entries, stale ::
      && Lists(segments, prefix, at, entries)
      && EntryReport(errors, entries, checksums) && ShaReport(shas, entries, checksums, stale)
  }

  /** The checker: it passes exactly the texts that are current, and says of others what is wrong with them. */
  method CheckText(lines: seq<string>, checksums: Checksums, prefix: string) returns (failure: Option<Failure>)
    ensures failure.None? <==> Current(Parse(lines), prefix, checksums)
    ensures failure == Some(MissingPath) <==> !PathsPresent(Parse(lines), prefix)
    ensures failure.Some? && failure.value != MissingPath ==>
              failure.value.Drift? && Drifts(Parse(lines), prefix, checksums, failure.value.errors, failure.value.shas)
  {
    hide Lists, EntryReport, ShaReport, Parse, Located, PathsPresent, EntryErrors, ShaErrors, Matches, PathsIn, Paths, Right, ShasRight;
    var found := HttpFiles(lines, prefix);
    if found.None? {
      return Some(MissingPath);
    }
    var entries := found.value;
    LocatedPaths(Parse(lines), 0, prefix);
    LocatedShas(Parse(lines), 0, prefix, checksums);
    EntryErrorsMean(entries, checksums);
    var errors := EntrySetErrors(entries, checksums);
    var shas := ChecksumErrors(entries, checksums);
    ghost var places := LocatedLists(Parse(lines), 0, prefix);
    EntryErrorsReport(entries, checksums);
    ghost var stale := ShaErrorsReport(entries, checksums);
    if errors == {} {
      CleanIsRight(entries, checksums);
    }
    return if errors == {} && shas == [] then None else Some(Drift(errors, shas));
  }

  // ---------------------------------------------------------------------------------------------
  // The rewriter
  // ---------------------------------------------------------------------------------------------

  predicate HasPlace(segment: Segment)
  {
    segment.Block? && (Has(segment.body, IsHexSha) || Has(segment.body, IsTightPath))
  }

  lemma InsertableFirst(segments: seq<Segment>, prefix: string)
    requires segments != []
    ensures Insertable(segments, prefix)
       <==> (Versioned(segments[0], prefix) ==> HasPlace(segments[0])) && Insertable(segments[1..], prefix)
  {
    hide Versioned, Has;
    var rest := segments[1..];
    assert forall i :: 0 <= i < |rest| ==> rest[i] == segments[i + 1];
    assert forall i :: 0 < i < |segments| ==> segments[i] == rest[i - 1];
  }

  /** Segments up to and with the first block of the version: what is skipped, the block, and what remains. */
  ghost predicate Split(segments: seq<Segment>, at: int, prefix: string, checksums: Checksums,
                        skip: seq<string>, block: Segment, rest: seq<Segment>)
  {
    && Versioned(block, prefix)
    && Flatten(segments) == skip + (Lines(block) + Flatten(rest))
    && Flatten(RewriteAll(segments, prefix, checksums))
       == skip + (Lines(Rewrite(block, prefix, checksums)) + Flatten(RewriteAll(rest, prefix, checksums)))
    && Located(segments, at, prefix)
       == FoundIn(block, at + |skip|, prefix) + Located(rest, at + |skip| + |Lines(block)|, prefix)
    && (Insertable(segments, prefix) <==> HasPlace(block) && Insertable(rest, prefix))
  }

  lemma Unfolded(segments: seq<Segment>, at: int, prefix: string, checksums: Checksums)
    requires segments != []
    ensures Flatten(segments) == Lines(segments[0]) + Flatten(segments[1..])
    ensures Flatten(RewriteAll(segments, prefix, checksums))
         == Lines(Rewrite(segments[0], prefix, checksums)) + Flatten(RewriteAll(segments[1..], prefix, checksums))
    ensures Located(segments, at, prefix)
         == FoundIn(segments[0], at, prefix) + Located(segments[1..], at + |Lines(segments[0])|, prefix)
  {
    hide Lines, Rewrite, FoundIn;
    assert RewriteAll(segments, prefix, checksums)[1..] == RewriteAll(segments[1..], prefix, checksums);
  }

  lemma SplitHere(segments: seq<Segment>, at: int, prefix: string, checksums: Checksums)
    requires segments != [] && Versioned(segments[0], prefix)
    ensures Split(segments, at, prefix, checksums, [], segments[0], segments[1..])
  {
    hide Versioned, Insertable, Lines, Rewrite, RewriteAll, Flatten, Located, FoundIn, HasPlace;
    InsertableFirst(segments, prefix);
    Unfolded(segments, at, prefix, checksums);
    var all := RewriteAll(segments, prefix, checksums);
    assert [] + Flatten(segments) == Flatten(segments) && [] + Flatten(all) == Flatten(all);
  }

  lemma LeftAlone(segment: Segment, at: int, prefix: string, checksums: Checksums)
    requires !Versioned(segment, prefix)
    ensures Rewrite(segment, prefix, checksums) == segment && FoundIn(segment, at, prefix) == []
  {
  }

  lemma SplitFurther(segments: seq<Segment>, at: int, prefix: string, checksums: Checksums,
                     skip: seq<string>, block: Segment, rest: seq<Segment>)
    requires segments != [] && !Versioned(segments[0], prefix)
    requires Split(segments[1..], at + |Lines(segments[0])|, prefix, checksums, skip, block, rest)
    ensures Split(segments, at, prefix, checksums, Lines(segments[0]) + skip, block, rest)
  {
    hide Versioned, Insertable, Lines, Rewrite, RewriteAll, Flatten, Located, FoundIn, HasPlace;
    LeftAlone(segments[0], at, prefix, checksums);
    InsertableFirst(segments, prefix);
    Unfolded(segments, at, prefix, checksums);
    Associated(Lines(segments[0]), skip, Lines(block) + Flatten(rest));
    Associated(Lines(segments[0]), skip,
               Lines(Rewrite(block, prefix, checksums)) + Flatten(RewriteAll(rest, prefix, checksums)));
  }

  lemma {:induction false} NextFound(segments: seq<Segment>, at: int, prefix: string, checksums: Checksums)
      returns (skip: seq<string>, block: Segment, rest: seq<Segment>)
    requires Located(segments, at, prefix) != []
    ensures Split(segments, at, prefix, checksums, skip, block, rest)
    decreases |segments|
  {
    hide Split, Lines, StringField;
    if Versioned(segments[0], prefix) {
      skip, block, rest := [], segments[0], segments[1..];
      SplitHere(segments, at, prefix, checksums);
    } else {
      skip, block, rest := NextFound(segments[1..], at + |Lines(segments[0])|, prefix, checksums);
      SplitFurther(segments, at, prefix, checksums, skip, block, rest);
      skip := Lines(segments[0]) + skip;
    }
  }

  lemma {:induction false} NoneFound(segments: seq<Segment>, at: int, prefix: string, checksums: Checksums)
    requires Located(segments, at, prefix) == []
    ensures Flatten(RewriteAll(segments, prefix, checksums)) == Flatten(segments) && Insertable(segments, prefix)
    decreases |segments|
  {
    hide Lines, StringField, PathOf, WithSha, Has;
    if segments != [] {
      InsertableFirst(segments, prefix);
      assert FoundIn(segments[0], at, prefix) == [];
      NoneFound(segments[1..], at + |Lines(segments[0])|, prefix, checksums);
      assert RewriteAll(segments, prefix, checksums)[1..] == RewriteAll(segments[1..], prefix, checksums);
    }
  }

  /** The rewriter has come to line `at`: what is written, the entries and the segments that remain. */
  ghost predicate RewrittenTo(lines: seq<string>, prefix: string, checksums: Checksums, at: int,
                              written: seq<string>, entries: seq<Found>, rest: seq<Segment>)
  {
    && 0 <= at <= |lines|
    && lines[at..] == Flatten(rest)
    && Located(rest, at, prefix) == entries
    && written + Flatten(RewriteAll(rest, prefix, checksums)) == Updated(lines, prefix, checksums)
    && (Insertable(Parse(lines), prefix) <==> Insertable(rest, prefix))
  }

  lemma RewriteStarts(lines: seq<string>, prefix: string, checksums: Checksums)
    ensures RewrittenTo(lines, prefix, checksums, 0, [], Located(Parse(lines), 0, prefix), Parse(lines))
  {
    hide Parse, Flatten, Located, RewriteAll, Insertable;
    ParsedIsWellCut(lines);
    assert lines[0..] == lines;
    var updated := Updated(lines, prefix, checksums);
    assert [] + updated == updated;
  }

  lemma PlacedInText(lines: seq<string>, at: nat, skip: seq<string>, block: Segment, tail: seq<string>)
    requires at <= |lines| && lines[at..] == skip + (Lines(block) + tail) && block.Block?
    ensures var start := at + |skip|;
            var end := start + |block.body| + 2;
            && end <= |lines| && lines[at..start] == skip && lines[end - 1] == block.close && lines[end..] == tail
  {
    hide OpenLine;
    var from := lines[at..];
    var n := |skip| + |block.body| + 2;
    assert from[..|skip|] == skip;
    assert from[n - 1] == block.close;
    assert from[n..] == tail;
  }

  lemma RewriteNext(lines: seq<string>, prefix: string, checksums: Checksums, at: nat, written: seq<string>,
                    entries: seq<Found>, rest: seq<Segment>)
      returns (skip: seq<string>, block: Segment, rest': seq<Segment>)
    requires RewrittenTo(lines, prefix, checksums, at, written, entries, rest) && entries != []
    ensures Versioned(block, prefix) && FoundIn(block, entries[0].start, prefix) == [entries[0]]
    ensures at <= entries[0].start < entries[0].end <= |lines|
    ensures lines[at..entries[0].start] == skip && lines[entries[0].end - 1] == block.close
    ensures !HasPlace(block) ==> !Insertable(Parse(lines), prefix)
    ensures HasPlace(block) ==>
              RewrittenTo(lines, prefix, checksums, entries[0].end,
                          written + (skip + Lines(Rewrite(block, prefix, checksums))), entries[1..], rest')
  {
    hide Parse, Flatten, Located, RewriteAll, Rewrite, Insertable, Lines, Updated, StringField, PathOf, HasPlace;
    skip, block, rest' := NextFound(rest, at, prefix, checksums);
    BlockLength(block);
    PlacedInText(lines, at, skip, block, Flatten(rest'));
    var start := at + |skip|;
    assert entries == FoundIn(block, start, prefix) + Located(rest', start + |Lines(block)|, prefix);
    var added, tail := Lines(Rewrite(block, prefix, checksums)), Flatten(RewriteAll(rest', prefix, checksums));
    assert (written + (skip + added)) + tail == written + (skip + (added + tail));
  }

  /** Why a block of the version can be rewritten in the text, once the entry set matches. */
  lemma EntryRewritten(block: Segment, entry: Found, at: int, prefix: string, checksums: Checksums)
    requires Versioned(block, prefix) && FoundIn(block, at, prefix) == [entry] && entry.path in checksums
    ensures var place := WithSha(entry.body, checksums[entry.path]);
            && (place.Some? <==> HasPlace(block))
            && (place.Some? ==>
                  Lines(Rewrite(block, prefix, checksums)) == [OpenLine()] + (place.value + [block.close]))
  {
    hide OpenLine, StringField, PathOf, CutOf, ShaLine;
  }

  lemma PathListedIn(entries: seq<Found>, checksums: Checksums, i: nat)
    requires i < |entries| && Matches(PathsIn(entries), checksums)
    ensures entries[i].path in checksums
  {
    assert PathsIn(entries)[i] == entries[i].path;
    assert entries[i].path in PathsIn(entries);
  }

  /** The rewriter: it succeeds exactly on the updatable texts, and rewrites every block of the version. */
  method UpdateText(lines: seq<string>, checksums: Checksums, prefix: string)
    returns (result: Result<seq<string>, Failure>)
    ensures result.Ok? <==> Updatable(Parse(lines), prefix, checksums)
    ensures result.Ok? ==> result.value == Updated(lines, prefix, checksums)
    ensures result == Err(MissingPath) <==> !PathsPresent(Parse(lines), prefix)
    ensures result.Err? && result.error.EntrySet? <==>
              PathsPresent(Parse(lines), prefix) && !Matches(Paths(Parse(lines), prefix), checksums)
    ensures result.Err? && result.error.EntrySet? ==>
              exists at, entries :: Lists(Parse(lines), prefix, at, entries)
                                 && EntryReport(result.error.errors, entries, checksums)
    ensures result == Err(NoPlace) <==>
              && PathsPresent(Parse(lines), prefix) && Matches(Paths(Parse(lines), prefix), checksums)
              && !Insertable(Parse(lines), prefix)
  {
    hide Lists, EntryReport, Parse, Located, PathsPresent, EntryErrors, Matches, PathsIn, Paths, RewrittenTo, Insertable, Updated, Rewrite,
         Lines, WithSha, Versioned, FoundIn, HasPlace;
    var found := HttpFiles(lines, prefix);
    if found.None? {
      return Err(MissingPath);
    }
    var entries := found.value;
    LocatedPaths(Parse(lines), 0, prefix);
    EntryErrorsMean(entries, checksums);
    var errors := EntrySetErrors(entries, checksums);
    if errors != {} {
      ghost var places := LocatedLists(Parse(lines), 0, prefix);
      EntryErrorsReport(entries, checksums);
      return Err(EntrySet(errors));
    }
    var updated: seq<string>, previousEnd, k := [], 0, 0;
    ghost var rest := Parse(lines);
    RewriteStarts(lines, prefix, checksums);
    assert entries[0..] == entries;
    while k < |entries|
      invariant k <= |entries| && 0 <= previousEnd <= |lines|
      invariant RewrittenTo(lines, prefix, checksums, previousEnd, updated, entries[k..], rest)
    {
      var entry := entries[k];
      ghost var skip, block, rest' := RewriteNext(lines, prefix, checksums, previousEnd, updated, entries[k..], rest);
      PathListedIn(entries, checksums, k);
      EntryRewritten(block, entry, entry.start, prefix, checksums);
      var rewritten := WithSha(entry.body, checksums[entry.path]);
      if rewritten.None? {
        return Err(NoPlace);
      }
      updated := updated + (lines[previousEnd..entry.start] + ([OpenLine()] + (rewritten.value + [lines[entry.end - 1]])));
      assert entries[k..][1..] == entries[k + 1..];
      previousEnd, rest, k := entry.end, rest', k + 1;
    }
    assert entries[k..] == [];
    RewriteEnds(lines, prefix, checksums, previousEnd, updated, rest);
    return Ok(updated + lines[previousEnd..]);
  }

  lemma RewriteEnds(lines: seq<string>, prefix: string, checksums: Checksums, at: nat, written: seq<string>,
                    rest: seq<Segment>)
    requires RewrittenTo(lines, prefix, checksums, at, written, [], rest)
    ensures at <= |lines| && written + lines[at..] == Updated(lines, prefix, checksums)
    ensures Insertable(Parse(lines), prefix)
  {
    hide Parse, Flatten, Located, RewriteAll, Insertable, Updated;
    NoneFound(rest, at, prefix, checksums);
  }
}
