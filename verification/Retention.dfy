/** The daily deletion pass: expired fax rows and transcripts go, then the files
    their documents named are unlinked. The SQL store's own sweep is a parameter:
    its counts and the attachment paths it released. */
module Retention {
  import opened Collections
  import opened Sequences
  import opened Blobs
  import opened FaxStore
  import opened FaxService
  import Transcripts

  datatype StoreSweep = StoreSweep(messages: nat, threads: nat, blobPaths: seq<string>)

  datatype Summary = Summary(messages: nat, faxes: nat, threads: nat, transcripts: nat, blobs: nat)

  /** The unlink of this path reports success. */
  ghost function Unlinkable(held: set<File>): string -> bool {
    path => ValidRelPath(path) && FileOf(path) !in held
  }

  /** Some listed path unlinks this file. */
  ghost predicate Names(paths: seq<string>, file: File) {
    exists i :: 0 <= i < |paths| && ValidRelPath(paths[i]) && FileOf(paths[i]) == file
  }

  /** What is left of the files after every listed path was unlinked, given the
      files that cannot be. */
  ghost function Unlinked(files: set<File>, stuck: set<File>, paths: seq<string>): set<File> {
    set f | f in files && (f in stuck || !Names(paths, f))
  }

  /** Unlinks the listed paths one by one; a corrupt path or a stuck file is
      skipped, a missing file counts. */
  method UnlinkAll(blobs: BlobStore, paths: seq<string>, stuck: set<File>) returns (unlinked: nat)
    modifies blobs
    ensures blobs.files == Unlinked(old(blobs.files), stuck, paths)
    ensures unlinked == |Filter(paths, Unlinkable(old(blobs.files) * stuck))|
  {
    unlinked := 0;
    ghost var files := blobs.files;
    var i := 0;
    while i < |paths|
      invariant 0 <= i <= |paths|
      invariant blobs.files == Unlinked(files, stuck, paths[..i])
      invariant unlinked == |Filter(paths[..i], Unlinkable(files * stuck))|
    {
      var path := paths[i];
      ghost var was := blobs.files;
      OnePathMore(files, stuck, paths, i);
      i := i + 1;
      if !ValidRelPath(path) {
        continue;
      }
      var err := blobs.Remove(path, stuck);
      assert FileOf(path) in was * stuck <==> FileOf(path) in files * stuck;
      if err {
        continue;
      }
      unlinked := unlinked + 1;
    }
    assert paths[..i] == paths;
  }

  lemma NamesConcat(a: seq<string>, b: seq<string>, file: File)
    ensures Names(a + b, file) <==> Names(a, file) || Names(b, file)
  {
    if i :| 0 <= i < |a| && ValidRelPath(a[i]) && FileOf(a[i]) == file { assert (a + b)[i] == a[i]; }
    if i :| 0 <= i < |b| && ValidRelPath(b[i]) && FileOf(b[i]) == file { assert (a + b)[|a| + i] == b[i]; }
  }

  lemma NamesOne(path: string, file: File)
    ensures Names([path], file) <==> ValidRelPath(path) && FileOf(path) == file
  {
    assert [path][0] == path;
  }

  lemma OnePathMore(files: set<File>, stuck: set<File>, paths: seq<string>, i: nat)
    requires i < |paths|
    ensures Filter(paths[..i + 1], Unlinkable(files * stuck)) ==
      Filter(paths[..i], Unlinkable(files * stuck)) + if Unlinkable(files * stuck)(paths[i]) then [paths[i]] else []
    ensures forall f :: Names(paths[..i + 1], f) <==> Names(paths[..i], f) || (ValidRelPath(paths[i]) && FileOf(paths[i]) == f)
  {
    assert paths[..i + 1] == paths[..i] + [paths[i]];
    assert paths[..i + 1][..|paths[..i + 1]| - 1] == paths[..i];
    forall f ensures Names(paths[..i + 1], f) <==> Names(paths[..i], f) || (ValidRelPath(paths[i]) && FileOf(paths[i]) == f) {
      NamesConcat(paths[..i], [paths[i]], f);
      NamesOne(paths[i], f);
    }
  }

  /** One pass at a fixed cutoff. A failed store sweep skips it entirely; a fax
      sweep cut short still hands over the paths it had noted; a transcript sweep
      cut short still counts what it removed. */
  method SweepOnce(faxes: Faxes, transcripts: Transcripts.Transcripts, blobs: BlobStore, cutoff: int,
      store: Option<StoreSweep>, faxFault: SweepFault, transcriptFails: Option<nat>, stuck: set<File>)
    returns (sum: Summary, ghost met: seq<string>, ghost gone: seq<string>)
    requires transcripts.Valid()
    modifies faxes, transcripts, blobs
    ensures transcripts.Valid()
    ensures store.None? ==>
      && sum == Summary(0, 0, 0, 0, 0) && faxes.View() == old(faxes.View())
      && transcripts.rows == old(transcripts.rows) && blobs.files == old(blobs.files)
    ensures store.Some? ==>
      && IsSweep(old(faxes.rows), cutoff, met) && gone <= met && |met| <= |gone| + 1
      && Without(faxes.rows, old(faxes.rows), gone) && faxes.applied == old(faxes.applied)
    ensures store.Some? ==>
      exists err :: Transcripts.SweepStep(old(transcripts.rows), cutoff, transcriptFails, transcripts.rows, sum.transcripts, err)
    ensures store.Some? && transcriptFails.None? ==>
      && transcripts.rows == Filter(old(transcripts.rows), Transcripts.NotBefore(cutoff))
      && sum.transcripts + |transcripts.rows| == |old(transcripts.rows)|
    ensures store.Some? ==> forall i :: 0 <= i < |met| ==> met[i] in old(faxes.rows)
    ensures store.Some? ==>
      var paths := store.value.blobPaths + PathsOf(old(faxes.rows), met);
      && blobs.files == Unlinked(old(blobs.files), stuck, paths)
      && sum.blobs == |Filter(paths, Unlinkable(old(blobs.files) * stuck))|
    ensures store.Some? ==>
      sum.messages == store.value.messages && sum.threads == store.value.threads && sum.faxes == |gone|
    ensures store.Some? && faxFault.NoFault? ==> met == gone && faxes.rows == old(faxes.rows) - DueIds(old(faxes.rows), cutoff)
  {
    met, gone := [], [];
    if store.None? {
      return Summary(0, 0, 0, 0, 0), met, gone;
    }
    var faxPaths, faxesRemoved, failed;
    faxPaths, faxesRemoved, failed, met, gone := faxes.SweepBefore(cutoff, faxFault);
    var transcriptsRemoved, cutShort := transcripts.SweepBefore(cutoff, transcriptFails);
    if !cutShort {
      Transcripts.SweepRemovesTheDue(old(transcripts.rows), cutoff, transcriptFails, transcripts.rows, transcriptsRemoved);
    }
    var unlinked := UnlinkAll(blobs, store.value.blobPaths + faxPaths, stuck);
    sum := Summary(store.value.messages, faxesRemoved, store.value.threads, transcriptsRemoved, unlinked);
  }

  /** Two rows whose documents are one file. */
  predicate Shares(a: FaxRow, b: FaxRow) {
    a.documentPath != "" && b.documentPath != "" && FileOf(a.documentPath) == FileOf(b.documentPath)
  }

  /** A row whose sweeping unlinks its document. */
  predicate Releases(row: FaxRow, stuck: set<File>) {
    ValidRelPath(row.documentPath) && FileOf(row.documentPath) !in stuck
  }

  lemma NamesOfRows(rows: map<string, FaxRow>, ids: seq<string>, file: File)
    requires forall i :: 0 <= i < |ids| ==> ids[i] in rows
    ensures Names(PathsOf(rows, ids), file) <==>
      exists i :: 0 <= i < |ids| && ValidRelPath(rows[ids[i]].documentPath) && FileOf(rows[ids[i]].documentPath) == file
  {
    var paths := PathsOf(rows, ids);
    if i :| 0 <= i < |ids| && ValidRelPath(rows[ids[i]].documentPath) && FileOf(rows[ids[i]].documentPath) == file {
      PathsAreDocuments(rows, ids, rows[ids[i]].documentPath);
    }
    if k :| 0 <= k < |paths| && ValidRelPath(paths[k]) && FileOf(paths[k]) == file {
      PathsAreDocuments(rows, ids, paths[k]);
    }
  }

  /** After any pass, cut short or not, a row that was not removed still has its
      document exactly when no path the store released names it and no row the
      sweep met shares and releases it; a row whose own expunge failed was met. */
  lemma SurvivorKeepsDocument(rows: map<string, FaxRow>, files: set<File>, stuck: set<File>, released: seq<string>,
      cutoff: int, met: seq<string>, gone: seq<string>, kept: string)
    requires AllSpooled(rows, files) && IsSweep(rows, cutoff, met) && gone <= met
    requires kept in rows && kept !in gone && rows[kept].documentPath != ""
    ensures FileOf(rows[kept].documentPath) in Unlinked(files, stuck, released + PathsOf(rows, met)) <==>
      && (FileOf(rows[kept].documentPath) in stuck || !Names(released, FileOf(rows[kept].documentPath)))
      && forall i :: 0 <= i < |met| && Releases(rows[met[i]], stuck) ==> !Shares(rows[met[i]], rows[kept])
  {
    var file := FileOf(rows[kept].documentPath);
    NamesConcat(released, PathsOf(rows, met), file);
    NamesOfRows(rows, met, file);
    if i :| 0 <= i < |met| && Releases(rows[met[i]], stuck) && Shares(rows[met[i]], rows[kept]) {
      assert ValidRelPath(rows[met[i]].documentPath) && FileOf(rows[met[i]].documentPath) == file;
    }
    if i :| 0 <= i < |met| && ValidRelPath(rows[met[i]].documentPath) && FileOf(rows[met[i]].documentPath) == file {
      assert file !in stuck ==> Releases(rows[met[i]], stuck) && Shares(rows[met[i]], rows[kept]);
    }
  }

  /** After a complete pass: exactly when no released path names it and no
      expirable row shares and releases it. */
  lemma SurvivorOfCompletePass(rows: map<string, FaxRow>, files: set<File>, stuck: set<File>, released: seq<string>,
      cutoff: int, met: seq<string>, kept: string)
    requires AllSpooled(rows, files) && IsSweep(rows, cutoff, met) && Elements(met) == DueIds(rows, cutoff)
    requires kept in rows && kept !in DueIds(rows, cutoff) && rows[kept].documentPath != ""
    ensures FileOf(rows[kept].documentPath) in Unlinked(files, stuck, released + PathsOf(rows, met)) <==>
      && (FileOf(rows[kept].documentPath) in stuck || !Names(released, FileOf(rows[kept].documentPath)))
      && forall due :: due in DueIds(rows, cutoff) && Releases(rows[due], stuck) ==> !Shares(rows[due], rows[kept])
  {
    assert kept !in met by {
      assert forall i :: 0 <= i < |met| ==> met[i] in Elements(met);
    }
    SurvivorKeepsDocument(rows, files, stuck, released, cutoff, met, met, kept);
    forall due | due in DueIds(rows, cutoff) ensures exists i :: 0 <= i < |met| && met[i] == due {
      assert due in Elements(met);
    }
    assert forall i :: 0 <= i < |met| ==> met[i] in Elements(met);
  }

  /** Why the condition is there: a resend is a younger row on the document of
      the failed one, so the pass that expires the failure takes the document
      from under the resend. */
  lemma ResendLosesDocument(rows: map<string, FaxRow>, files: set<File>, released: seq<string>,
      cutoff: int, met: seq<string>, failed: string, retry: string)
    requires AllSpooled(rows, files) && IsSweep(rows, cutoff, met) && Elements(met) == DueIds(rows, cutoff)
    requires failed in rows && retry in rows && ValidRelPath(rows[failed].documentPath)
    requires rows[retry].documentPath == rows[failed].documentPath
    requires rows[failed].createdAt < cutoff <= rows[retry].createdAt
    ensures retry in rows - DueIds(rows, cutoff)
    ensures FileOf(rows[retry].documentPath) !in Unlinked(files, {}, released + PathsOf(rows, met))
  {
    SurvivorOfCompletePass(rows, files, {}, released, cutoff, met, retry);
    assert failed in DueIds(rows, cutoff) && Releases(rows[failed], {}) && Shares(rows[failed], rows[retry]);
  }

  /** And a row whose expunge failed survives the pass without its document: it
      was met, and it shares its document with itself. */
  lemma StuckRowLosesDocument(rows: map<string, FaxRow>, files: set<File>, released: seq<string>,
      cutoff: int, met: seq<string>, gone: seq<string>)
    requires IsSweep(rows, cutoff, met) && gone <= met && |met| == |gone| + 1
    requires ValidRelPath(rows[met[|gone|]].documentPath)
    ensures met[|gone|] in rows - Elements(gone)
    ensures FileOf(rows[met[|gone|]].documentPath) !in Unlinked(files, {}, released + PathsOf(rows, met))
  {
    var file := FileOf(rows[met[|gone|]].documentPath);
    NamesConcat(released, PathsOf(rows, met), file);
    NamesOfRows(rows, met, file);
    forall i | 0 <= i < |gone| ensures gone[i] != met[|gone|] { assert gone[i] == met[i]; }
  }

  function FilesOf(paths: seq<string>): (files: seq<File>)
    ensures |files| == |paths| && forall i :: 0 <= i < |files| ==> files[i] == FileOf(paths[i])
  {
    seq(|paths|, i requires 0 <= i < |paths| => FileOf(paths[i]))
  }

  /** The files that go are those the successful unlinks name, if they exist. */
  lemma RemovedFiles(files: set<File>, stuck: set<File>, paths: seq<string>)
    ensures files - Unlinked(files, stuck, paths) ==
      Elements(FilesOf(Filter(paths, Unlinkable(files * stuck)))) * files
  {
    var done := Filter(paths, Unlinkable(files * stuck));
    FilterMembers(paths, Unlinkable(files * stuck));
    forall f | f in files - Unlinked(files, stuck, paths) ensures f in Elements(FilesOf(done)) {
      var i :| 0 <= i < |paths| && ValidRelPath(paths[i]) && FileOf(paths[i]) == f;
      assert Unlinkable(files * stuck)(paths[i]) && paths[i] in done;
      var k :| 0 <= k < |done| && done[k] == paths[i];
      assert FilesOf(done)[k] == f;
    }
    forall f | f in Elements(FilesOf(done)) * files ensures f !in Unlinked(files, stuck, paths) {
      var k :| 0 <= k < |done| && FilesOf(done)[k] == f;
      assert done[k] in done && done[k] in paths;
      var i :| 0 <= i < |paths| && paths[i] == done[k];
      assert Names(paths, f);
    }
  }

  /** The count of unlinked files counts paths. It is the number of files removed
      exactly when the successful unlinks name different files, all existing. */
  lemma CountIsFilesRemoved(files: set<File>, stuck: set<File>, paths: seq<string>)
    ensures var done := FilesOf(Filter(paths, Unlinkable(files * stuck)));
      |Filter(paths, Unlinkable(files * stuck))| == |files - Unlinked(files, stuck, paths)| <==>
        Distinct(done) && forall i :: 0 <= i < |done| ==> done[i] in files
  {
    var done := FilesOf(Filter(paths, Unlinkable(files * stuck)));
    RemovedFiles(files, stuck, paths);
    ElementsSize(done);
    SubsetSize(Elements(done) * files, Elements(done));
    if Distinct(done) { DistinctSize(done); }
    if Elements(done) <= files { assert Elements(done) * files == Elements(done); }
    assert Elements(done) <= files <==> forall i :: 0 <= i < |done| ==> done[i] in files by {
      forall i | 0 <= i < |done| ensures done[i] in Elements(done) {}
    }
  }

  /** So a document named twice is unlinked once and counted twice. */
  lemma SharedDocumentCountsTwice(path: string)
    requires ValidRelPath(path)
    ensures |Filter([path, path], Unlinkable({}))| == 2
    ensures |{FileOf(path)} - Unlinked({FileOf(path)}, {}, [path, path])| == 1
  {
    assert [path, path][..1] == [path] && [path][..0] == [];
    assert Filter([path], Unlinkable({})) == [path];
    assert Names([path, path], FileOf(path)) by { assert [path, path][0] == path; }
    assert Unlinked({FileOf(path)}, {}, [path, path]) == {};
    assert {FileOf(path)} - {} == {FileOf(path)};
  }
}
