/**
 * The effectful collaborators of the video pipeline, reduced to abstract state:
 * the blob store (an opaque key to bytes map), the local temporary directory for
 * in-flight transcodes, and the two columns of the `media` table that the queue's
 * drivers write. Failures of the real services are passed in as parameters.
 */
module Effects {
  import opened Wrappers

  type Bytes = seq<bv8>

  /**
   * A value thrown or rejected by a failing call: an `Error` object, an HTTP error
   * (an `Error` whose message is its status message), or any other value.
   */
  datatype Thrown =
    | ErrorObject(message: string)
    | HttpError(statusCode: int, statusMessage: string)
    | OtherValue(text: string)

  /** The directory both video modules use for temporary files. */
  const VIDEO_TEMP_DIR: string := ".data/temp/videos"

  /** The blob store: `get`, `put` and `del` over keys. */
  class BlobStore {
    var blobs: map<string, Bytes>

    constructor (initial: map<string, Bytes>)
      ensures blobs == initial
    {
      blobs := initial;
    }

    /** `blob.put(key, data)`; `failure` is the error the store raises, if any. */
    method Put(key: string, data: Bytes, failure: Outcome<Thrown>) returns (r: Outcome<Thrown>)
      modifies this
      ensures r == failure
      ensures blobs == if failure.Pass? then old(blobs)[key := data] else old(blobs)
    {
      r := failure;
      if failure.Pass? {
        blobs := blobs[key := data];
      }
    }

    /** `blob.del(key)`; it throws exactly for the keys in `failing`. */
    method Del(key: string, failing: set<string>) returns (ok: bool)
      modifies this
      ensures ok == (key !in failing)
      ensures blobs == if ok then old(blobs) - {key} else old(blobs)
    {
      ok := key !in failing;
      if ok {
        blobs := blobs - {key};
      }
    }
  }

  /** A file in the temporary directory: its modification time and its contents. */
  datatype TempFile = TempFile(mtimeMs: int, data: Bytes)

  /** The temporary directory VIDEO_TEMP_DIR: whether it exists and its entries by name. */
  class TempDir {
    var present: bool
    var files: map<string, TempFile>

    ghost predicate Valid()
      reads this
    {
      !present ==> files == map[]
    }

    constructor (present: bool, files: map<string, TempFile>)
      requires !present ==> files == map[]
      ensures Valid() && this.present == present && this.files == files
    {
      this.present := present;
      this.files := files;
    }

    /** `mkdir(VIDEO_TEMP_DIR, { recursive: true })` */
    method MakeDir()
      requires Valid()
      modifies this
      ensures Valid() && present && files == old(files)
    {
      present := true;
    }

    /** Creates or truncates the file `name` and writes `data` into it at time `nowMs`. */
    method Write(name: string, data: Bytes, nowMs: int)
      requires Valid() && present
      modifies this
      ensures Valid() && present && files == old(files)[name := TempFile(nowMs, data)]
    {
      files := files[name := TempFile(nowMs, data)];
    }

    /** `unlink(join(VIDEO_TEMP_DIR, name))`; it fails for missing files and for the names in `failing`. */
    method Unlink(name: string, failing: set<string>) returns (ok: bool)
      requires Valid()
      modifies this
      ensures Valid() && present == old(present)
      ensures ok == (name in old(files) && name !in failing)
      ensures files == if ok then old(files) - {name} else old(files)
    {
      ok := name in files && name !in failing;
      if ok {
        files := files - {name};
      }
    }
  }

  /** The value of `media.processing` for a ready item. */
  const READY: int := 0
  /** The value of `media.processing` for an item whose transcode failed for good. */
  const FAILED: int := -1

  /** The part of a `media` row the video pipeline writes. */
  datatype MediaRow = MediaRow(processing: int, webPath: Option<string>)

  /** The `media` table, keyed by media id. */
  class MediaTable {
    var rows: map<string, MediaRow>

    constructor (initial: map<string, MediaRow>)
      ensures rows == initial
    {
      rows := initial;
    }

    /** `update(media).set({ processing: 0, webPath }).where(eq(media.id, id))` */
    method MarkReady(id: string, webPath: string)
      modifies this
      ensures rows == MarkedReady(old(rows), id, webPath)
    {
      rows := MarkedReady(rows, id, webPath);
    }

    /** `update(media).set({ processing: -1 }).where(eq(media.id, id))` */
    method MarkFailed(id: string)
      modifies this
      ensures rows == MarkedFailed(old(rows), id)
    {
      rows := MarkedFailed(rows, id);
    }
  }

  /** An UPDATE by id changes the row with that id, if any, and nothing else. */
  function MarkedReady(rows: map<string, MediaRow>, id: string, webPath: string): (r: map<string, MediaRow>)
    ensures r.Keys == rows.Keys
    ensures id in rows ==> r[id] == MediaRow(READY, Some(webPath))
    ensures forall k :: k in rows && k != id ==> r[k] == rows[k]
  {
    if id in rows then rows[id := MediaRow(READY, Some(webPath))] else rows
  }

  function MarkedFailed(rows: map<string, MediaRow>, id: string): (r: map<string, MediaRow>)
    ensures r.Keys == rows.Keys
    ensures id in rows ==> r[id] == rows[id].(processing := FAILED)
    ensures forall k :: k in rows && k != id ==> r[k] == rows[k]
  {
    if id in rows then rows[id := rows[id].(processing := FAILED)] else rows
  }
}
