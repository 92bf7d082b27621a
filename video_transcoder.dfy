/**
 * The transcoder the durable queue drives: it stages a video from the blob store in
 * two temporary files, re-encodes it and uploads the result, always removing its
 * temporary files afterwards; and the sweep of temporary files left by a crash.
 * The encoder itself is a parameter: its output or its error.
 */
module VideoTranscoder {
  import opened Wrappers
  import opened Effects

  /** Temporary files older than this are orphans. */
  const ORPHAN_AGE_MS: int := 6 * 60 * 60 * 1000

  const INPUT_SUFFIX: string := "-input.tmp"
  const OUTPUT_SUFFIX: string := "-output.mp4"

  /** The name of the staged download of media `mediaId`. */
  function InputName(mediaId: string): (n: string)
    ensures |n| == |mediaId| + |INPUT_SUFFIX| && n[..|mediaId|] == mediaId
    ensures n[|mediaId|..] == INPUT_SUFFIX
    ensures n[|n| - 1] == 'p'
  {
    mediaId + INPUT_SUFFIX
  }

  /** The name of the encoder's output for media `mediaId`. */
  function OutputName(mediaId: string): (n: string)
    ensures |n| == |mediaId| + |OUTPUT_SUFFIX| && n[..|mediaId|] == mediaId
    ensures n[|mediaId|..] == OUTPUT_SUFFIX
    ensures n[|n| - 1] == '4'
  {
    mediaId + OUTPUT_SUFFIX
  }

  /**
   * Distinct media items never share a temporary file, and the input and output of
   * one transcode never coincide.
   */
  lemma TempNamesDistinct(a: string, b: string)
    ensures InputName(a) != OutputName(b)
    ensures InputName(a) == InputName(b) ==> a == b
    ensures OutputName(a) == OutputName(b) ==> a == b
  {
    if InputName(a) == InputName(b) {
      assert a == InputName(a)[..|a|];
    }
    if OutputName(a) == OutputName(b) {
      assert a == OutputName(a)[..|a|];
    }
  }

  /** What the three external steps do: the blob download, the encoder and the upload. */
  datatype TranscodeEffects = TranscodeEffects(download: Outcome<Thrown>, encode: Result<Bytes, Thrown>, upload: Outcome<Thrown>)

  /** The outcome transcodeVideo reports: the first failing step's error, else success. */
  function TranscodeOutcome(blobs: map<string, Bytes>, sourcePath: string, fx: TranscodeEffects): (r: Outcome<Thrown>)
    ensures r.Pass? <==> sourcePath in blobs && fx.download.Pass? && fx.encode.Ok? && fx.upload.Pass?
    ensures sourcePath !in blobs ==> r == Fail(ErrorObject("Source blob not found: " + sourcePath))
    ensures sourcePath in blobs && fx.download.Fail? ==> r == fx.download
    ensures sourcePath in blobs && fx.download.Pass? && fx.encode.Err? ==> r == Fail(fx.encode.error)
    ensures sourcePath in blobs && fx.download.Pass? && fx.encode.Ok? ==> r == fx.upload
  {
    if sourcePath !in blobs then Fail(ErrorObject("Source blob not found: " + sourcePath))
    else if fx.download.Fail? then fx.download
    else if fx.encode.Err? then Fail(fx.encode.error)
    else fx.upload
  }

  /** `cleanup(path)`: removes the file if it exists; a failing unlink is swallowed. */
  method Cleanup(dir: TempDir, name: string, unlinkFails: set<string>)
    requires dir.Valid()
    modifies dir
    ensures dir.Valid() && dir.present == old(dir.present)
    ensures dir.files == if name in old(dir.files) && name !in unlinkFails then old(dir.files) - {name} else old(dir.files)
  {
    if name in dir.files {
      var removed := dir.Unlink(name, unlinkFails);
    }
  }

  /**
   * transcodeVideo. The directory is created when missing; the download is staged in the
   * input file and the encoder writes the output file (a failing download or encoder
   * leaves the file it was writing, without modelled contents). Whatever happens, both
   * files are removed at the end unless their unlink fails; the target blob is written
   * only when every step succeeds.
   */
  method TranscodeVideo(store: BlobStore, dir: TempDir, mediaId: string, sourcePath: string, targetPath: string,
                        nowMs: int, fx: TranscodeEffects, unlinkFails: set<string>)
    returns (r: Outcome<Thrown>)
    requires dir.Valid()
    modifies store, dir
    ensures dir.Valid() && dir.present
    ensures r == TranscodeOutcome(old(store.blobs), sourcePath, fx)
    ensures store.blobs == if r.Pass? then old(store.blobs)[targetPath := fx.encode.value] else old(store.blobs)
    ensures InputName(mediaId) !in unlinkFails ==> InputName(mediaId) !in dir.files
    ensures OutputName(mediaId) !in unlinkFails ==> OutputName(mediaId) !in dir.files
    ensures dir.files - {InputName(mediaId), OutputName(mediaId)} == old(dir.files) - {InputName(mediaId), OutputName(mediaId)}
  {
    if !dir.present {
      dir.MakeDir();
    }
    var inputName := InputName(mediaId);
    var outputName := OutputName(mediaId);
    TempNamesDistinct(mediaId, mediaId);

    if sourcePath !in store.blobs {
      r := Fail(ErrorObject("Source blob not found: " + sourcePath));
    } else {
      var original := store.blobs[sourcePath];
      if fx.download.Fail? {
        dir.Write(inputName, [], nowMs);
        r := fx.download;
      } else {
        dir.Write(inputName, original, nowMs);
        match fx.encode
        case Err(e) =>
          dir.Write(outputName, [], nowMs);
          r := Fail(e);
        case Ok(encoded) =>
          dir.Write(outputName, encoded, nowMs);
          var outputBuffer := dir.files[outputName].data;
          r := store.Put(targetPath, outputBuffer, fx.upload);
      }
    }

    Cleanup(dir, inputName, unlinkFails);
    Cleanup(dir, outputName, unlinkFails);
  }

  /** The files the orphan sweep removes: older than six hours, with working stat and unlink. */
  function Orphans(files: map<string, TempFile>, nowMs: int, fileFails: set<string>): (o: set<string>)
    ensures o <= files.Keys
    ensures forall n :: n in o <==> n in files && files[n].mtimeMs < nowMs - ORPHAN_AGE_MS && n !in fileFails
  {
    set n | n in files && files[n].mtimeMs < nowMs - ORPHAN_AGE_MS && n !in fileFails
  }

  /**
   * cleanupOrphanedTempFiles: a missing directory or a failing listing cleans nothing;
   * otherwise exactly the orphans are removed and counted. `fileFails` are the entries
   * whose stat or unlink throws; they are skipped.
   */
  method CleanupOrphanedTempFiles(dir: TempDir, nowMs: int, listFails: bool, fileFails: set<string>)
    returns (cleaned: nat)
    requires dir.Valid()
    modifies dir
    ensures dir.Valid() && dir.present == old(dir.present)
    ensures !old(dir.present) || listFails ==> cleaned == 0 && dir.files == old(dir.files)
    ensures old(dir.present) && !listFails ==>
      && dir.files == old(dir.files) - Orphans(old(dir.files), nowMs, fileFails)
      && cleaned == |Orphans(old(dir.files), nowMs, fileFails)|
  {
    if !dir.present {
      return 0;
    }
    cleaned := 0;
    if listFails {
      return;
    }
    cleaned := RemoveOrphans(dir, nowMs, fileFails);
  }

  /** The loop over the listing of cleanupOrphanedTempFiles. */
  method RemoveOrphans(dir: TempDir, nowMs: int, fileFails: set<string>) returns (cleaned: nat)
    requires dir.Valid() && dir.present
    modifies dir
    ensures dir.Valid() && dir.present
    ensures dir.files == old(dir.files) - Orphans(old(dir.files), nowMs, fileFails)
    ensures cleaned == |Orphans(old(dir.files), nowMs, fileFails)|
  {
    cleaned := 0;
    var sixHoursAgo := nowMs - ORPHAN_AGE_MS;
    ghost var files0 := dir.files;
    ghost var orphans := Orphans(files0, nowMs, fileFails);
    ghost var removed: set<string> := {};
    var files := dir.files.Keys;
    while files != {}
      invariant dir.Valid() && dir.present
      invariant files <= files0.Keys && removed !! files
      invariant removed == orphans - files
      invariant dir.files == files0 - removed
      invariant cleaned == |removed|
      decreases |files|
    {
      var file :| file in files;
      assert file in dir.files && dir.files[file] == files0[file];
      RemovedStep(orphans, files, removed, file);
      if file !in fileFails && dir.files[file].mtimeMs < sixHoursAgo {
        assert file in orphans;
        var removedOk := dir.Unlink(file, fileFails);
        MinusStep(files0, removed, file);
        removed := removed + {file};
        cleaned := cleaned + 1;
      } else {
        assert file !in orphans;
      }
      files := files - {file};
    }
    assert removed == orphans;
  }

  lemma MinusStep(m: map<string, TempFile>, s: set<string>, x: string)
    ensures (m - s) - {x} == m - (s + {x})
  {
  }

  /** Visiting one more file of the listing: it joins the removed files iff it is an orphan. */
  lemma RemovedStep(orphans: set<string>, files: set<string>, removed: set<string>, file: string)
    requires file in files && removed == orphans - files
    ensures file !in removed
    ensures file in orphans ==> orphans - (files - {file}) == removed + {file}
    ensures file !in orphans ==> orphans - (files - {file}) == removed
  {
  }

  /** A file written less than six hours ago survives the sweep, whatever else is removed. */
  lemma FreshFileSurvives(files: map<string, TempFile>, name: string, nowMs: int, fileFails: set<string>)
    requires name in files && nowMs - files[name].mtimeMs <= ORPHAN_AGE_MS
    ensures name in files - Orphans(files, nowMs, fileFails)
  {
  }
}
