/** The persisted list of uploaded files, kept under the storage key
    'extension-files' (Chrome's extension storage, or `localStorage` when
    that is unavailable), and the operations the extension performs on it.

    Storage itself is a collaborator: each operation is told how its read
    and its write turn out (`readOk`, `writeError`). A failed read yields
    the empty list, as the source's reader does; a failed write leaves the
    stored value as it was and surfaces the error. */
module FileStorage {
  import opened Base
  import Text

  /** One stored file. `ocrText`, `ocrProcessed` and `ocrError` are absent
      until OCR has been run on it. */
  datatype StoredFile = StoredFile(
    id: string,
    name: string,
    fileType: string,
    size: nat,
    dataUrl: string,
    uploadDate: string,
    ocrText: Option<string>,
    ocrProcessed: Option<bool>,
    ocrError: Option<string>)

  /** A file the user picked: its name, media type and size, and what
      reading it as a data URL produces (the URL, or the reader's error). */
  datatype LocalFile = LocalFile(name: string, fileType: string, size: nat, dataUrl: Result<string, Thrown>)

  /** How one read-then-write of the stored list turns out. */
  datatype StorageIo = StorageIo(readOk: bool, writeError: Option<Thrown>)

  /** What saving one file is given by its environment: the generated id,
      the current time as an ISO string, and how storage behaves. */
  datatype SaveEnv = SaveEnv(id: string, uploadDate: string, io: StorageIo)

  const QuotaExceededName := "QuotaExceededError"
  const QuotaMarker := "Storage quota exceeded"

  function StorageLabel(chromeAvailable: bool): string {
    if chromeAvailable then "Chrome storage" else "localStorage (10MB limit)"
  }

  /** The message `saveFile` puts on a quota error. */
  function QuotaMessage(chromeAvailable: bool): string {
    QuotaMarker + " in " + StorageLabel(chromeAvailable) + ". Please remove some files and try again."
  }

  /** `saveFile`'s catch: an `Error` named 'QuotaExceededError' becomes a new
      `Error` that says which storage is full; anything else is rethrown. */
  function SaveError(e: Thrown, chromeAvailable: bool): (r: Thrown)
    ensures e.Error? && e.name == QuotaExceededName ==>
      r == NewError(QuotaMessage(chromeAvailable)) && Text.Contains(r.message, QuotaMarker)
    ensures !(e.Error? && e.name == QuotaExceededName) ==> r == e
  {
    if e.Error? && e.name == QuotaExceededName then
      var m := QuotaMessage(chromeAvailable);
      assert Text.OccursAt(m, QuotaMarker, 0);
      NewError(m)
    else e
  }

  /** The record `saveFile` builds: name, type and size copied from the
      file, no OCR fields. */
  function NewRecord(file: LocalFile, env: SaveEnv, dataUrl: string): StoredFile {
    StoredFile(env.id, file.name, file.fileType, file.size, dataUrl, env.uploadDate, None, None, None)
  }

  /** Stored value and result after `saveFile(file)`. */
  datatype SaveOutcome = SaveOutcome(slot: Option<seq<StoredFile>>, result: Result<StoredFile, Thrown>)

  function ReadSlot(slot: Option<seq<StoredFile>>, readOk: bool): seq<StoredFile> {
    if readOk then slot.GetOr([]) else []
  }

  function SaveFileSpec(slot: Option<seq<StoredFile>>, chromeAvailable: bool, file: LocalFile, env: SaveEnv): SaveOutcome {
    match file.dataUrl
    case Err(e) => SaveOutcome(slot, Err(SaveError(e, chromeAvailable)))
    case Ok(url) =>
      var record := NewRecord(file, env, url);
      match env.io.writeError
      case Some(e) => SaveOutcome(slot, Err(SaveError(e, chromeAvailable)))
      case None => SaveOutcome(Some(ReadSlot(slot, env.io.readOk) + [record]), Ok(record))
  }

  /** `saveFile`: on success exactly one record is appended, built from the
      file alone, and the records before it are kept (when the read of the
      existing list succeeded; a failed read makes the new list hold the new
      record alone). On failure nothing is stored. */
  lemma SaveFileAppends(slot: Option<seq<StoredFile>>, chromeAvailable: bool, file: LocalFile, env: SaveEnv)
    ensures var o := SaveFileSpec(slot, chromeAvailable, file, env);
      && (o.result.Ok? ==>
            && o.result.value.name == file.name && o.result.value.fileType == file.fileType
            && o.result.value.size == file.size && o.result.value.id == env.id
            && o.result.value.ocrText.None? && o.result.value.ocrError.None? && o.result.value.ocrProcessed.None?
            && o.slot == Some(ReadSlot(slot, env.io.readOk) + [o.result.value])
            && (env.io.readOk ==> o.slot.value[..|o.slot.value| - 1] == slot.GetOr([])))
      && (o.result.Err? ==> o.slot == slot)
  {
  }

  /** The state of `saveFiles`' loop: stored value, saved records, collected
      errors, and whether it stopped on a quota error. */
  datatype SaveRun = SaveRun(slot: Option<seq<StoredFile>>, saved: seq<StoredFile>, errors: seq<Thrown>, stopped: bool)

  /** `error instanceof Error ? error : new Error('Unknown error')` */
  function AsError(e: Thrown): Thrown {
    if e.IsError() then e else NewError("Unknown error")
  }

  predicate IsQuotaFailure(e: Thrown) {
    e.IsError() && Text.Contains(e.message, QuotaMarker)
  }

  /** `saveFiles`' loop over the first `|files|` files: each file is saved
      in turn; a failure is collected and stops the loop when it is a quota
      failure. */
  function SaveAll(slot: Option<seq<StoredFile>>, chromeAvailable: bool, files: seq<LocalFile>, envs: seq<SaveEnv>): SaveRun
    requires |envs| == |files|
  {
    if files == [] then SaveRun(slot, [], [], false)
    else
      var n := |files| - 1;
      var run := SaveAll(slot, chromeAvailable, files[..n], envs[..n]);
      if run.stopped then run
      else SaveNext(run, SaveFileSpec(run.slot, chromeAvailable, files[n], envs[n]))
  }

  /** One more file saved (or failed) after `run`. */
  function SaveNext(run: SaveRun, o: SaveOutcome): SaveRun {
    match o.result
    case Ok(record) => run.(slot := o.slot, saved := run.saved + [record])
    case Err(e) => run.(slot := o.slot, errors := run.errors + [AsError(e)], stopped := IsQuotaFailure(e))
  }

  /** `saveFiles`' result: the first error when nothing was saved, the
      saved records otherwise (even if some files failed). */
  function SaveFilesResult(run: SaveRun): (r: Result<seq<StoredFile>, Thrown>)
    ensures r.Err? <==> |run.saved| == 0 && |run.errors| > 0
    ensures r.Err? ==> r.error == run.errors[0]
    ensures r.Ok? ==> r.value == run.saved
  {
    if |run.errors| > 0 && |run.saved| == 0 then Err(run.errors[0]) else Ok(run.saved)
  }

  /** Once the loop has stopped, the files after that point are not tried. */
  lemma {:induction false} SaveAllStops(slot: Option<seq<StoredFile>>, chromeAvailable: bool,
                                        files: seq<LocalFile>, envs: seq<SaveEnv>, k: nat)
    requires |envs| == |files| && k <= |files|
    requires SaveAll(slot, chromeAvailable, files[..k], envs[..k]).stopped
    ensures SaveAll(slot, chromeAvailable, files, envs) == SaveAll(slot, chromeAvailable, files[..k], envs[..k])
    decreases |files|
  {
    if |files| > k {
      var n := |files| - 1;
      assert files[..n][..k] == files[..k] && envs[..n][..k] == envs[..k];
      SaveAllStops(slot, chromeAvailable, files[..n], envs[..n], k);
    } else {
      assert files[..k] == files && envs[..k] == envs;
    }
  }

  /** Accounting for `saveFiles`: every file tried is either saved or
      recorded as an error; without a stop every file is tried; the loop
      stops only right after a failure carrying the quota message; errors
      that are not `Error` objects are recorded as 'Unknown error'. */
  lemma {:induction false} SaveAllAccounting(slot: Option<seq<StoredFile>>, chromeAvailable: bool,
                                             files: seq<LocalFile>, envs: seq<SaveEnv>)
    requires |envs| == |files|
    ensures var run := SaveAll(slot, chromeAvailable, files, envs);
      && |run.saved| + |run.errors| <= |files|
      && (!run.stopped ==> |run.saved| + |run.errors| == |files|)
      && (forall k :: 0 <= k < |run.errors| ==> run.errors[k].IsError())
      && (run.stopped ==> |run.errors| > 0 && Text.Contains(run.errors[|run.errors| - 1].message, QuotaMarker))
  {
    if files != [] {
      var n := |files| - 1;
      SaveAllAccounting(slot, chromeAvailable, files[..n], envs[..n]);
    }
  }

  /** When every read succeeds, the stored list ends up as the list before
      the call followed by the saved records, in input order. */
  lemma {:induction false} SaveAllAppends(slot: Option<seq<StoredFile>>, chromeAvailable: bool,
                                          files: seq<LocalFile>, envs: seq<SaveEnv>)
    requires |envs| == |files|
    requires forall k :: 0 <= k < |envs| ==> envs[k].io.readOk
    ensures var run := SaveAll(slot, chromeAvailable, files, envs);
      run.slot.GetOr([]) == slot.GetOr([]) + run.saved
  {
    if files != [] {
      var n := |files| - 1;
      SaveAllAppends(slot, chromeAvailable, files[..n], envs[..n]);
    }
  }

  /** A file with no data URL error and a successful write is always saved:
      on healthy storage `saveFiles` saves every file, the k-th saved record
      being the record built from the k-th file, and succeeds. */
  lemma {:induction false} SaveAllHealthy(slot: Option<seq<StoredFile>>, chromeAvailable: bool,
                                          files: seq<LocalFile>, envs: seq<SaveEnv>)
    requires |envs| == |files|
    requires forall k :: 0 <= k < |files| ==> files[k].dataUrl.Ok? && envs[k].io.writeError.None?
    ensures var run := SaveAll(slot, chromeAvailable, files, envs);
      && |run.saved| == |files| && run.errors == [] && !run.stopped
      && (forall k :: 0 <= k < |files| ==> run.saved[k] == NewRecord(files[k], envs[k], files[k].dataUrl.value))
      && (|files| > 0 ==> SaveFilesResult(run) == Ok(run.saved))
  {
    if files != [] {
      var n := |files| - 1;
      SaveAllHealthy(slot, chromeAvailable, files[..n], envs[..n]);
      forall k | 0 <= k < n
        ensures files[..n][k] == files[k] && envs[..n][k] == envs[k]
      {
      }
    }
  }

  /** The first record with the id, if any: `findIndex` / `find`. */
  function FindIndex(files: seq<StoredFile>, id: string): (r: Option<nat>)
    ensures r.Some? ==> r.value < |files| && files[r.value].id == id
    ensures r.Some? ==> forall k :: 0 <= k < r.value ==> files[k].id != id
    ensures r.None? ==> forall k :: 0 <= k < |files| ==> files[k].id != id
  {
    if files == [] then None
    else if files[0].id == id then Some(0)
    else match FindIndex(files[1..], id)
      case None => None
      case Some(k) => Some(k + 1)
  }

  /** `{...file, ocrText, ocrError, ocrProcessed: true}` */
  function WithOcr(f: StoredFile, text: Option<string>, error: Option<string>): StoredFile {
    f.(ocrText := text, ocrError := error, ocrProcessed := Some(true))
  }

  /** The list `updateFileOCR` writes back, or None when no record has the id. */
  function UpdateOcr(files: seq<StoredFile>, id: string, text: Option<string>, error: Option<string>): (r: Option<seq<StoredFile>>)
    ensures r.None? <==> forall k :: 0 <= k < |files| ==> files[k].id != id
    ensures r.Some? ==> |r.value| == |files|
    ensures r.Some? ==> forall k :: 0 <= k < |files| ==>
      r.value[k] == (if k == FindIndex(files, id).value then WithOcr(files[k], text, error) else files[k])
  {
    match FindIndex(files, id)
    case None => None
    case Some(i) => Some(files[i := WithOcr(files[i], text, error)])
  }

  /** The stored value after `updateFileOCR(id, text, error)`: the list with
      the first record carrying the id rewritten, when the read finds one
      and the write succeeds; the value as it was otherwise. */
  function UpdatedSlot(slot: Option<seq<StoredFile>>, id: string, text: Option<string>, error: Option<string>,
                       io: StorageIo): Option<seq<StoredFile>>
  {
    var found := UpdateOcr(ReadSlot(slot, io.readOk), id, text, error);
    if found.Some? && io.writeError.None? then Some(found.value) else slot
  }

  /** Round trip: after an OCR update, looking the id up again finds the same
      position, now carrying exactly the given text and error and marked as
      processed, with its other fields as before. */
  lemma UpdateThenFind(files: seq<StoredFile>, id: string, text: Option<string>, error: Option<string>)
    requires UpdateOcr(files, id, text, error).Some?
    ensures var updated := UpdateOcr(files, id, text, error).value;
      var i := FindIndex(files, id).value;
      && FindIndex(updated, id) == Some(i)
      && updated[i].ocrText == text && updated[i].ocrError == error && updated[i].ocrProcessed == Some(true)
      && updated[i].(ocrText := files[i].ocrText, ocrError := files[i].ocrError, ocrProcessed := files[i].ocrProcessed) == files[i]
  {
    var updated := UpdateOcr(files, id, text, error).value;
    var i := FindIndex(files, id).value;
    assert updated[i].id == id;
  }

  /** `deleteFile`'s `filter`: the records whose id differs, in order. */
  function WithoutId(files: seq<StoredFile>, id: string): (r: seq<StoredFile>)
    ensures |r| <= |files|
    ensures forall k :: 0 <= k < |r| ==> r[k].id != id
    ensures forall f :: f in files && f.id != id ==> f in r
    ensures forall f :: f in r ==> f in files
  {
    if files == [] then []
    else if files[0].id == id then WithoutId(files[1..], id)
    else [files[0]] + WithoutId(files[1..], id)
  }

  /** Deleting keeps the order of the remaining records: it distributes over
      concatenation. */
  lemma {:induction false} WithoutIdKeepsOrder(a: seq<StoredFile>, b: seq<StoredFile>, id: string)
    ensures WithoutId(a + b, id) == WithoutId(a, id) + WithoutId(b, id)
  {
    if a == [] {
      assert a + b == b;
    } else {
      assert (a + b)[0] == a[0] && (a + b)[1..] == a[1..] + b;
      WithoutIdKeepsOrder(a[1..], b, id);
    }
  }

  /** Deleting an id nobody has changes nothing. */
  lemma {:induction false} WithoutAbsentId(files: seq<StoredFile>, id: string)
    requires forall k :: 0 <= k < |files| ==> files[k].id != id
    ensures WithoutId(files, id) == files
  {
    if files != [] {
      WithoutAbsentId(files[1..], id);
    }
  }

  /** `reduce((total, file) => total + file.size, 0)` */
  function TotalSize(files: seq<StoredFile>): nat {
    if files == [] then 0 else TotalSize(files[..|files| - 1]) + files[|files| - 1].size
  }

  lemma {:induction false} TotalSizeAppend(a: seq<StoredFile>, b: seq<StoredFile>)
    ensures TotalSize(a + b) == TotalSize(a) + TotalSize(b)
    decreases |b|
  {
    if b == [] {
      assert a + b == a;
    } else {
      var n := |b| - 1;
      assert (a + b)[..|a + b| - 1] == a + b[..n];
      TotalSizeAppend(a, b[..n]);
    }
  }

  /** Each record's size is part of the total. */
  lemma {:induction false} TotalSizeBoundsEach(files: seq<StoredFile>)
    ensures forall k :: 0 <= k < |files| ==> files[k].size <= TotalSize(files)
  {
    if files != [] {
      var n := |files| - 1;
      TotalSizeBoundsEach(files[..n]);
      forall k | 0 <= k < n
        ensures files[..n][k] == files[k]
      {
      }
    }
  }

  /** A successful save adds the file's size to the total (when the read of
      the existing list succeeded). */
  lemma SaveAddsSize(slot: Option<seq<StoredFile>>, chromeAvailable: bool, file: LocalFile, env: SaveEnv)
    requires env.io.readOk
    requires SaveFileSpec(slot, chromeAvailable, file, env).result.Ok?
    ensures TotalSize(SaveFileSpec(slot, chromeAvailable, file, env).slot.GetOr([])) == TotalSize(slot.GetOr([])) + file.size
  {
    var o := SaveFileSpec(slot, chromeAvailable, file, env);
    TotalSizeAppend(slot.GetOr([]), [o.result.value]);
    assert [o.result.value][..0] == [];
  }

  /** The storage area, holding the value under 'extension-files' (None when
      the key is absent). */
  class Storage {
    const chromeAvailable: bool
    var slot: Option<seq<StoredFile>>

    constructor (chromeAvailable: bool, slot: Option<seq<StoredFile>>)
      ensures this.chromeAvailable == chromeAvailable && this.slot == slot
    {
      this.chromeAvailable := chromeAvailable;
      this.slot := slot;
    }

    /** `getStoredFiles` / `getAllFiles`: the stored list; the empty list when
        the key is absent or the read fails. */
    function Read(readOk: bool): (r: seq<StoredFile>)
      reads this
      ensures !readOk || slot.None? ==> r == []
      ensures readOk && slot.Some? ==> r == slot.value
    {
      ReadSlot(slot, readOk)
    }

    /** `setStoredFiles`: writes the list, or fails with `writeError` and
        leaves the stored value as it was. */
    method SetStoredFiles(files: seq<StoredFile>, writeError: Option<Thrown>) returns (failure: Option<Thrown>)
      modifies this
      ensures failure == writeError
      ensures slot == if writeError.None? then Some(files) else old(slot)
    {
      if writeError.Some? {
        return writeError;
      }
      slot := Some(files);
      return None;
    }

    /** `saveFile` */
    method SaveFile(file: LocalFile, env: SaveEnv) returns (r: Result<StoredFile, Thrown>)
      modifies this
      ensures SaveOutcome(slot, r) == SaveFileSpec(old(slot), chromeAvailable, file, env)
    {
      if file.dataUrl.Err? {
        return Err(SaveError(file.dataUrl.error, chromeAvailable));
      }
      var record := NewRecord(file, env, file.dataUrl.value);
      var existing := Read(env.io.readOk);
      existing := existing + [record];
      var failure := SetStoredFiles(existing, env.io.writeError);
      if failure.Some? {
        return Err(SaveError(failure.value, chromeAvailable));
      }
      return Ok(record);
    }

    /** `saveFiles`: saves the files in order, stopping after the first quota
        failure; throws the first error only when nothing was saved. */
    method SaveFiles(files: seq<LocalFile>, envs: seq<SaveEnv>) returns (r: Result<seq<StoredFile>, Thrown>)
      requires |envs| == |files|
      modifies this
      ensures var run := SaveAll(old(slot), chromeAvailable, files, envs);
        slot == run.slot && r == SaveFilesResult(run)
    {
      var saved: seq<StoredFile> := [];
      var errors: seq<Thrown> := [];
      var i := 0;
      while i < |files|
        invariant 0 <= i <= |files|
        invariant SaveAll(old(slot), chromeAvailable, files[..i], envs[..i]) == SaveRun(slot, saved, errors, false)
      {
        assert files[..i + 1][..i] == files[..i] && envs[..i + 1][..i] == envs[..i];
        ghost var before := SaveRun(slot, saved, errors, false);
        assert SaveAll(old(slot), chromeAvailable, files[..i + 1], envs[..i + 1])
            == SaveNext(before, SaveFileSpec(slot, chromeAvailable, files[i], envs[i]));
        var one := SaveFile(files[i], envs[i]);
        ghost var after := SaveNext(before, SaveOutcome(slot, one));
        assert SaveAll(old(slot), chromeAvailable, files[..i + 1], envs[..i + 1]) == after;
        match one {
          case Ok(record) =>
            saved := saved + [record];
          case Err(e) =>
            errors := errors + [AsError(e)];
            if IsQuotaFailure(e) {
              assert after == SaveRun(slot, saved, errors, true);
              SaveAllStops(old(slot), chromeAvailable, files, envs, i + 1);
              break;
            }
        }
        assert after == SaveRun(slot, saved, errors, false);
        i := i + 1;
      }
      if i == |files| {
        assert files[..i] == files && envs[..i] == envs;
      }
      if |errors| > 0 && |saved| == 0 {
        return Err(errors[0]);
      }
      return Ok(saved);
    }

    /** `getFile`: the first record with the id, or null. */
    function GetFile(id: string, readOk: bool): (r: Option<StoredFile>)
      reads this
      ensures r.Some? ==> r.value in Read(readOk) && r.value.id == id
      ensures r.None? <==> forall k :: 0 <= k < |Read(readOk)| ==> Read(readOk)[k].id != id
      ensures r.Some? ==> r.value == Read(readOk)[FindIndex(Read(readOk), id).value]
    {
      match FindIndex(Read(readOk), id)
      case None => None
      case Some(i) => Some(Read(readOk)[i])
    }

    /** `updateFileOCR`: rewrites the first record with the id; false when
        there is none (or the read or write fails), with nothing changed. */
    method UpdateFileOCR(id: string, text: Option<string>, error: Option<string>, io: StorageIo) returns (ok: bool)
      modifies this
      ensures ok <==> io.readOk && FindIndex(old(slot).GetOr([]), id).Some? && io.writeError.None?
      ensures slot == UpdatedSlot(old(slot), id, text, error, io)
    {
      var files := Read(io.readOk);
      var fileIndex := FindIndex(files, id);
      if fileIndex.None? {
        return false;
      }
      var i := fileIndex.value;
      files := files[i := WithOcr(files[i], text, error)];
      var failure := SetStoredFiles(files, io.writeError);
      return failure.None?;
    }

    /** `deleteFile`: writes back the records with other ids; true even when
        none matched, false (nothing changed) when the write fails. A failed
        read yields the empty list, which is then written. */
    method DeleteFile(id: string, io: StorageIo) returns (ok: bool)
      modifies this
      ensures ok <==> io.writeError.None?
      ensures ok ==> slot == Some(WithoutId(old(Read(io.readOk)), id))
      ensures !ok ==> slot == old(slot)
    {
      var files := Read(io.readOk);
      var updatedFiles := WithoutId(files, id);
      var failure := SetStoredFiles(updatedFiles, io.writeError);
      return failure.None?;
    }

    /** `deleteAllFiles`: removes the key. */
    method DeleteAllFiles(removeError: Option<Thrown>) returns (ok: bool)
      modifies this
      ensures ok <==> removeError.None?
      ensures slot == if ok then None else old(slot)
    {
      if removeError.Some? {
        return false;
      }
      slot := None;
      return true;
    }

    /** `getTotalStorageSize`: the sum of the stored sizes, so no smaller
        than any one of them, and 0 when nothing is stored. */
    function GetTotalStorageSize(readOk: bool): (r: nat)
      reads this
      ensures r == TotalSize(Read(readOk))
      ensures Read(readOk) == [] ==> r == 0
      ensures forall k :: 0 <= k < |Read(readOk)| ==> Read(readOk)[k].size <= r
    {
      TotalSizeBoundsEach(Read(readOk));
      TotalSize(Read(readOk))
    }
  }
}
