/** The checksum manifest: one `<sha256>  <filename>` a line. */
module BazelManifest {
  import opened Common
  import opened Words
  import opened BazelLines
  import opened BazelRewrite

  function Parts(line: string): seq<string>
  {
    WordsOf(line, IsSpace)
  }

  /** A digest and a bare file name. */
  predicate IsEntry(line: string)
  {
    var parts := Parts(line);
    && |parts| == 2
    && IsHex(parts[0]) && |parts[0]| == 64
    && parts[1] != "." && parts[1] != ".." && '/' !in parts[1]
  }

  function FileOf(line: string): string
  {
    if |Parts(line)| == 2 then Parts(line)[1] else ""
  }

  function DigestOf(line: string): string
  {
    if |Parts(line)| == 2 then Parts(line)[0] else ""
  }

  /** Line `i` says something: it is not blank. */
  predicate Says(lines: seq<string>, i: nat)
    requires i < |lines|
  {
    Parts(lines[i]) != []
  }

  /** The first `n` lines are blank or entries, no two for the same file. */
  ghost predicate Distinct(lines: seq<string>, n: nat)
    requires n <= |lines|
  {
    && (forall i {:trigger Says(lines, i)} :: 0 <= i < n && Says(lines, i) ==> IsEntry(lines[i]))
    && (forall i, j {:trigger Says(lines, i), Says(lines, j)} :: 0 <= i < j < n && Says(lines, i) && Says(lines, j)
          ==> FileOf(lines[i]) != FileOf(lines[j]))
  }

  /** Every line is blank or an entry, no file has two entries, and there is an entry. */
  ghost predicate Readable(lines: seq<string>)
  {
    Distinct(lines, |lines|) && exists i :: 0 <= i < |lines| && Says(lines, i)
  }

  ghost predicate Listed(lines: seq<string>, n: nat, file: string)
    requires n <= |lines|
  {
    exists i {:trigger Says(lines, i)} :: 0 <= i < n && Says(lines, i) && FileOf(lines[i]) == file
  }

  /** The map holds exactly the entries of the first `n` lines. */
  ghost predicate Holds(checksums: Checksums, lines: seq<string>, n: nat)
    requires n <= |lines|
  {
    && (forall i {:trigger Says(lines, i)} :: 0 <= i < n && Says(lines, i) ==>
          FileOf(lines[i]) in checksums && checksums[FileOf(lines[i])] == DigestOf(lines[i]))
    && (forall file :: file in checksums ==> Listed(lines, n, file))
  }

  ghost predicate ReadTo(lines: seq<string>, n: nat, checksums: Checksums)
    requires n <= |lines|
  {
    Distinct(lines, n) && Holds(checksums, lines, n) && Manifest(checksums)
  }

  lemma Entered(lines: seq<string>, n: nat, checksums: Checksums)
    requires n < |lines| && ReadTo(lines, n, checksums)
    requires Says(lines, n) && IsEntry(lines[n]) && FileOf(lines[n]) !in checksums
    ensures ReadTo(lines, n + 1, checksums[FileOf(lines[n]) := DigestOf(lines[n])])
  {
    hide Says, IsEntry, FileOf, DigestOf, IsHex;
    DigestFits(lines[n]);
    var file := FileOf(lines[n]);
    var more := checksums[file := DigestOf(lines[n])];
    forall f | f in more ensures Listed(lines, n + 1, f) {
      if f == file {
        assert Says(lines, n);
      } else {
        assert Listed(lines, n, f);
      }
    }
  }

  lemma DigestFits(line: string)
    requires IsEntry(line)
    ensures IsHex(DigestOf(line)) && |DigestOf(line)| == 64
  {
  }

  lemma Refused(lines: seq<string>, n: nat, checksums: Checksums)
    requires n < |lines| && ReadTo(lines, n, checksums)
    requires Says(lines, n) && (!IsEntry(lines[n]) || FileOf(lines[n]) in checksums)
    ensures !Readable(lines)
  {
    hide Says, IsEntry, FileOf, DigestOf, Manifest;
    if IsEntry(lines[n]) {
      var i :| 0 <= i < n && Says(lines, i) && FileOf(lines[i]) == FileOf(lines[n]);
    }
  }

  lemma Ended(lines: seq<string>, checksums: Checksums)
    requires ReadTo(lines, |lines|, checksums)
    ensures Readable(lines) <==> checksums != map[]
  {
    hide Says, IsEntry, FileOf, DigestOf, Manifest;
    if file :| file in checksums {
      var i :| 0 <= i < |lines| && Says(lines, i) && FileOf(lines[i]) == file;
    }
  }

  /** The line's words are a checksum of 64 hexadecimal digits and a bare file name. */
  ghost predicate Entry(line: string, digest: string, file: string)
  {
    && WordsOf(line, IsSpace) == [digest, file] && |digest| == 64
    && (forall i :: 0 <= i < |digest| ==> '0' <= digest[i] <= '9' || 'a' <= digest[i] <= 'f')
    && file != "." && file != ".." && '/' !in file
  }

  ghost predicate IsBlankLine(line: string)
  {
    WordsOf(line, IsSpace) == []
  }

  /** What a manifest may be, line by line. */
  ghost predicate WellFormed(lines: seq<string>)
  {
    && (forall i {:trigger lines[i]} :: 0 <= i < |lines| ==>
          IsBlankLine(lines[i]) || exists digest, file :: Entry(lines[i], digest, file))
    && (forall i, j, d, e, file {:trigger Entry(lines[i], d, file), Entry(lines[j], e, file)} ::
          0 <= i < j < |lines| && Entry(lines[i], d, file) ==> !Entry(lines[j], e, file))
    && (exists i :: 0 <= i < |lines| && !IsBlankLine(lines[i]))
  }

  /** The checksums are those of the entries, and no others. */
  ghost predicate Records(checksums: Checksums, lines: seq<string>)
  {
    && (forall i, digest, file {:trigger Entry(lines[i], digest, file)} ::
          0 <= i < |lines| && Entry(lines[i], digest, file) ==> file in checksums && checksums[file] == digest)
    && (forall file {:trigger checksums[file]} :: file in checksums ==>
          exists i :: 0 <= i < |lines| && Entry(lines[i], checksums[file], file))
  }

  lemma EntryIs(line: string)
    ensures IsEntry(line) ==> Entry(line, DigestOf(line), FileOf(line))
    ensures forall digest, file :: Entry(line, digest, file) ==>
              IsEntry(line) && DigestOf(line) == digest && FileOf(line) == file
  {
    hide WordsOf;
    var parts := Parts(line);
    assert |parts| == 2 ==> parts == [parts[0], parts[1]];
  }

  lemma SaysMeans(lines: seq<string>, i: nat)
    requires i < |lines|
    ensures Says(lines, i) <==> !IsBlankLine(lines[i])
    ensures IsEntry(lines[i]) ==> Says(lines, i)
  {
  }

  lemma ReadableMeans(lines: seq<string>)
    ensures Readable(lines) <==> WellFormed(lines)
  {
    hide IsEntry, Entry, FileOf, DigestOf, Says, IsBlankLine;
    forall i | 0 <= i < |lines|
      ensures Says(lines, i) <==> !IsBlankLine(lines[i])
      ensures IsEntry(lines[i]) ==> Says(lines, i)
      ensures IsEntry(lines[i]) ==> Entry(lines[i], DigestOf(lines[i]), FileOf(lines[i]))
      ensures forall digest, file :: Entry(lines[i], digest, file) ==>
                IsEntry(lines[i]) && DigestOf(lines[i]) == digest && FileOf(lines[i]) == file
    {
      SaysMeans(lines, i);
      EntryIs(lines[i]);
    }
    if Readable(lines) {
      assert WellFormed(lines);
    }
    if WellFormed(lines) {
      forall i, j | 0 <= i < j < |lines| && Says(lines, i) && Says(lines, j)
        ensures FileOf(lines[i]) != FileOf(lines[j])
      {
        assert IsEntry(lines[i]) && IsEntry(lines[j]);
        assert Entry(lines[i], DigestOf(lines[i]), FileOf(lines[i]));
        assert Entry(lines[j], DigestOf(lines[j]), FileOf(lines[j]));
      }
    }
  }

  lemma HoldsMeans(checksums: Checksums, lines: seq<string>)
    requires Readable(lines) && Holds(checksums, lines, |lines|)
    ensures Records(checksums, lines)
  {
    hide IsEntry, Entry, FileOf, DigestOf, Says;
    forall i, digest, file | 0 <= i < |lines| && Entry(lines[i], digest, file)
      ensures file in checksums && checksums[file] == digest
    {
      EntryIs(lines[i]);
      SaysMeans(lines, i);
    }
    forall file | file in checksums ensures exists i :: 0 <= i < |lines| && Entry(lines[i], checksums[file], file) {
      var i :| 0 <= i < |lines| && Says(lines, i) && FileOf(lines[i]) == file;
      EntryIs(lines[i]);
      assert Entry(lines[i], checksums[file], file);
    }
  }

  /** Reading a manifest: it succeeds exactly on the readable ones, and holds their entries. */
  method ParseManifest(lines: seq<string>) returns (result: Option<Checksums>)
    ensures result.Some? <==> Readable(lines)
    ensures result.Some? ==> Manifest(result.value) && Holds(result.value, lines, |lines|)
    ensures result.Some? <==> WellFormed(lines)
    ensures result.Some? ==> Records(result.value, lines)
  {
    hide WellFormed, Records, Parts, IsEntry, FileOf, DigestOf, Readable, Holds, Distinct, Manifest;
    var checksums: Checksums := map[];
    NothingRead(lines);
    for n := 0 to |lines|
      invariant ReadTo(lines, n, checksums)
    {
      var line := lines[n];
      if Parts(line) == [] {
        BlankRead(lines, n, checksums);
      } else {
        if !IsEntry(line) || FileOf(line) in checksums {
          Refused(lines, n, checksums);
          ReadableMeans(lines);
          return None;
        }
        Entered(lines, n, checksums);
        checksums := checksums[FileOf(line) := DigestOf(line)];
      }
    }
    Ended(lines, checksums);
    ReadableMeans(lines);
    if Readable(lines) {
      HoldsMeans(checksums, lines);
    }
    return if checksums == map[] then None else Some(checksums);
  }

  lemma NothingRead(lines: seq<string>)
    ensures ReadTo(lines, 0, map[])
  {
  }

  lemma BlankRead(lines: seq<string>, n: nat, checksums: Checksums)
    requires n < |lines| && ReadTo(lines, n, checksums) && !Says(lines, n)
    ensures ReadTo(lines, n + 1, checksums)
  {
    hide Says, IsEntry, FileOf, DigestOf, Manifest;
    forall file | file in checksums ensures Listed(lines, n + 1, file) {
      assert Listed(lines, n, file);
    }
  }
}
