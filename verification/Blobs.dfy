/** Blob files under one root: the relative-path check every disk touch goes
    through, the file a path names, and the store of files. */
module Blobs {

  /** A file's place below the root: its path segments, cleaned. */
  type File = seq<string>

  /** One more character in front of a split path. */
  function Push(c: char, segments: seq<string>): (r: seq<string>)
    requires segments != []
    ensures r != []
  {
    if c == '/' then [""] + segments else [[c] + segments[0]] + segments[1..]
  }

  /** The segments of a path between its slashes; never empty. */
  function Split(raw: string): (segments: seq<string>)
    ensures segments != []
  {
    if raw == "" then [""] else Push(raw[0], Split(raw[1..]))
  }

  predicate ValidRelPath(raw: string) {
    raw != "" && raw[0] != '/' && '\\' !in raw && ".." !in Split(raw)
  }

  /** Empty and "." segments do not move. */
  function Clean(segments: seq<string>): (file: File) {
    if segments == [] then []
    else if segments[0] == "" || segments[0] == "." then Clean(segments[1..])
    else [segments[0]] + Clean(segments[1..])
  }

  /** The file a path names once joined onto the root. */
  function FileOf(raw: string): File { Clean(Split(raw)) }

  lemma {:induction false} CleanMembers(segments: seq<string>, x: string)
    ensures x in Clean(segments) <==> x in segments && x != "" && x != "."
  {
    if segments != [] {
      CleanMembers(segments[1..], x);
    }
  }

  lemma {:induction false} SplitPieces(raw: string)
    ensures forall i :: 0 <= i < |Split(raw)| ==> '/' !in Split(raw)[i]
  {
    if raw != "" {
      SplitPieces(raw[1..]);
    }
  }

  /** A checked path cannot leave the root: every step it takes goes down into a
      named entry. */
  lemma ValidPathStaysInside(raw: string)
    requires ValidRelPath(raw)
    ensures forall i :: 0 <= i < |FileOf(raw)| ==>
      var step := FileOf(raw)[i]; step != "" && step != "." && step != ".." && '/' !in step
  {
    SplitPieces(raw);
    forall i | 0 <= i < |FileOf(raw)|
      ensures var step := FileOf(raw)[i]; step != "" && step != "." && step != ".." && '/' !in step
    {
      CleanMembers(Split(raw), FileOf(raw)[i]);
    }
  }

  lemma PushConcat(c: char, a: seq<string>, b: seq<string>)
    requires a != []
    ensures Push(c, a + b) == Push(c, a) + b
  {
    assert (a + b)[1..] == a[1..] + b;
  }

  lemma {:induction false} SplitJoin(a: string, b: string)
    ensures Split(a + "/" + b) == Split(a) + Split(b)
  {
    var all := a + "/" + b;
    if a == "" {
      assert all[1..] == b;
    } else {
      SplitJoin(a[1..], b);
      assert all[1..] == a[1..] + "/" + b;
      PushConcat(a[0], Split(a[1..]), Split(b));
    }
  }

  lemma {:induction false} CleanConcat(a: seq<string>, b: seq<string>)
    ensures Clean(a + b) == Clean(a) + Clean(b)
  {
    if a == [] {
      assert a + b == b;
    } else {
      CleanConcat(a[1..], b);
      assert (a + b)[1..] == a[1..] + b;
    }
  }

  /** The check does not make paths unique: a "." segment anywhere gives a
      second path to the same file. */
  lemma PathsAlias(a: string, b: string)
    ensures FileOf(a + "/" + "." + "/" + b) == FileOf(a + "/" + b)
  {
    SplitJoin(a, b);
    SplitJoin(a, "." + "/" + b);
    SplitJoin(".", b);
    assert a + "/" + "." + "/" + b == a + "/" + ("." + "/" + b);
    assert Split(".") == ["."] by { assert "."[1..] == "" && ['.'] + "" == "."; }
    CleanConcat(Split(a), Split(b));
    CleanConcat(Split(a), ["."] + Split(b));
    assert (["."] + Split(b))[1..] == Split(b);
  }

  /** The path has this text between two slashes, or between a slash and an end. */
  predicate HasSegment(raw: string, segment: string, i: int) {
    && 0 <= i <= |raw| - |segment| && raw[i..i + |segment|] == segment
    && (i == 0 || raw[i - 1] == '/') && (i + |segment| == |raw| || raw[i + |segment|] == '/')
  }

  lemma {:induction false} FirstSegment(raw: string, segment: string)
    requires '/' !in segment
    ensures Split(raw)[0] == segment <==> HasSegment(raw, segment, 0)
  {
    if raw != "" && raw[0] != '/' && segment != "" {
      FirstSegment(raw[1..], segment[1..]);
      assert segment == [segment[0]] + segment[1..];
      if raw[0] == segment[0] && |segment| <= |raw| {
        assert raw[0..|segment|] == [raw[0]] + raw[1..][0..|segment| - 1];
      }
    }
  }

  lemma SegmentShifts(raw: string, segment: string, i: int)
    requires raw != "" && i > 0
    ensures HasSegment(raw, segment, i) <==> HasSegment(raw[1..], segment, i - 1) && (i > 1 || raw[0] == '/')
  {
    var n := |segment|;
    if i + n <= |raw| {
      assert raw[i..i + n] == raw[1..][i - 1..i - 1 + n];
    }
  }

  lemma {:induction false} LaterSegments(raw: string, segment: string)
    requires '/' !in segment
    ensures segment in Split(raw)[1..] <==> exists i :: i > 0 && HasSegment(raw, segment, i)
  {
    if raw != "" {
      var rest := raw[1..];
      LaterSegments(rest, segment);
      FirstSegment(rest, segment);
      forall i | i > 0 ensures HasSegment(raw, segment, i) <==> HasSegment(rest, segment, i - 1) && (i > 1 || raw[0] == '/') {
        SegmentShifts(raw, segment, i);
      }
      assert Split(rest) == [Split(rest)[0]] + Split(rest)[1..];
      if raw[0] == '/' {
        assert Split(raw)[1..] == Split(rest);
        if HasSegment(rest, segment, 0) { assert HasSegment(raw, segment, 1); }
      } else {
        assert Split(raw)[1..] == Split(rest)[1..];
      }
      if i :| i > 0 && HasSegment(rest, segment, i) { assert HasSegment(raw, segment, i + 1); }
      if i :| i > 0 && HasSegment(raw, segment, i) { assert i > 1 ==> HasSegment(rest, segment, i - 1); }
    }
  }

  /** Which paths are accepted: not empty, not from the root, without a backslash,
      and with no ".." between slashes or at an end. */
  lemma AcceptedPaths(raw: string)
    ensures ValidRelPath(raw) <==>
      |raw| > 0 && raw[0] != '/' && (forall i :: 0 <= i < |raw| ==> raw[i] != '\\') && forall i :: !HasSegment(raw, "..", i)
  {
    FirstSegment(raw, "..");
    LaterSegments(raw, "..");
    assert Split(raw) == [Split(raw)[0]] + Split(raw)[1..];
    assert (exists i :: HasSegment(raw, "..", i)) <==> HasSegment(raw, "..", 0) || exists i :: i > 0 && HasSegment(raw, "..", i);
  }

  /** The file of a joined path is the one path's steps after the other's, and a
      plain name is one step. */
  lemma FilesJoin(a: string, b: string)
    ensures FileOf(a + "/" + b) == FileOf(a) + FileOf(b)
    ensures '/' !in a ==> FileOf(a) == if a == "" || a == "." then [] else [a]
  {
    SplitJoin(a, b);
    CleanConcat(Split(a), Split(b));
    if '/' !in a { OnePiece(a); }
  }

  lemma {:induction false} OnePiece(a: string)
    requires '/' !in a
    ensures Split(a) == [a]
  {
    if a != "" {
      OnePiece(a[1..]);
      assert a == [a[0]] + a[1..];
    }
  }

  class BlobStore {
    var files: set<File>

    constructor ()
      ensures files == {}
    {
      files := {};
    }

    /** Stores content under a fresh generated path. */
    method Save(path: string)
      modifies this
      ensures files == old(files) + {FileOf(path)}
    {
      files := files + {FileOf(path)};
    }

    method Open(path: string) returns (found: bool)
      ensures found == (FileOf(path) in files)
    {
      found := FileOf(path) in files;
    }

    /** Unlinks one file; a missing file is no error, a stuck one is. */
    method Remove(path: string, stuck: set<File>) returns (err: bool)
      modifies this
      ensures err == (FileOf(path) in old(files) * stuck)
      ensures files == if err then old(files) else old(files) - {FileOf(path)}
    {
      err := FileOf(path) in files && FileOf(path) in stuck;
      if !err {
        files := files - {FileOf(path)};
      }
    }
  }
}
