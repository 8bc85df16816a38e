/** The Svelte stores of the extension's side panel: the list of stored
    files shown to the user, the OCR progress and the OCR-running flag, and
    the actions that keep them in step with storage (adding, removing and
    clearing files, refreshing, and running OCR over all or some stored
    files, writing each result back to its record).

    Each store is a current value plus a log that records every value the
    store is set to. Storage faults, the
    base64 decoder and the OCR replies are given to each action as data. */
module FilesStore {
  import opened Base
  import Text
  import FileStorage
  import OcrService

  /** `addFiles`' message when the save threw something that is not an `Error`. */
  const FailedToSave := "Failed to save files"

  /** `addFiles`' message when some files were not saved. */
  function PartialSaveMessage(saved: nat, given: nat): string {
    "Only " + Text.NatToString(saved) + " of " + Text.NatToString(given)
      + " files were saved. Storage quota may be exceeded."
  }

  /** The progress shown when a run starts, succeeds or fails; `n` counts
      every selected file, processable or not. */
  function StartProgress(n: nat): OcrService.OcrProgress {
    OcrService.OcrProgress("", 0, n, OcrService.Fraction(0, 1), OcrService.Starting)
  }

  function CompleteProgress(n: nat): OcrService.OcrProgress {
    OcrService.OcrProgress("", n, n, OcrService.Fraction(1, 1), OcrService.AllComplete)
  }

  function FailedProgress(n: nat): OcrService.OcrProgress {
    OcrService.OcrProgress("", 0, n, OcrService.Fraction(0, 1), OcrService.AllFailed)
  }

  /** `allFiles.filter((file) => fileIds.includes(file.id))` */
  function Selected(all: seq<FileStorage.StoredFile>, fileIds: seq<string>): (r: seq<FileStorage.StoredFile>)
    ensures |r| <= |all|
    ensures forall k :: 0 <= k < |r| ==> r[k].id in fileIds
    ensures forall f :: f in all && f.id in fileIds ==> f in r
    ensures forall f :: f in r ==> f in all
  {
    if all == [] then []
    else if all[0].id in fileIds then [all[0]] + Selected(all[1..], fileIds)
    else Selected(all[1..], fileIds)
  }

  /** The selection keeps storage order: it distributes over concatenation. */
  lemma {:induction false} SelectedKeepsOrder(a: seq<FileStorage.StoredFile>, b: seq<FileStorage.StoredFile>,
                                              fileIds: seq<string>)
    ensures Selected(a + b, fileIds) == Selected(a, fileIds) + Selected(b, fileIds)
  {
    if a == [] {
      assert a + b == b;
    } else {
      assert (a + b)[0] == a[0] && (a + b)[1..] == a[1..] + b;
      SelectedKeepsOrder(a[1..], b, fileIds);
    }
  }

  /** `result.text` and `result.error` of a results entry. */
  function TextOf(o: OcrService.OcrResult): Option<string> {
    if o.Text? then Some(o.text) else None
  }

  function ErrorOf(o: OcrService.OcrResult): Option<string> {
    if o.Failed? then Some(o.error) else None
  }

  /** The stored value after the loop `for (const [fileId, result] of
      results.entries()) await updateFileOCR(fileId, result.text,
      result.error)` over the first `|keys|` keys; `ios(id)` is how storage
      behaves during the update of `id`. */
  function WriteBack(slot: Option<seq<FileStorage.StoredFile>>, keys: seq<string>,
                     entries: map<string, OcrService.OcrResult>,
                     ios: string -> FileStorage.StorageIo): Option<seq<FileStorage.StoredFile>>
  {
    if keys == [] then slot
    else
      var m := |keys| - 1;
      var before := WriteBack(slot, keys[..m], entries, ios);
      if keys[m] in entries then
        var o := entries[keys[m]];
        FileStorage.UpdatedSlot(before, keys[m], TextOf(o), ErrorOf(o), ios(keys[m]))
      else before
  }

  /** Storage whose reads and writes all succeed. */
  function Healthy(): FileStorage.StorageIo {
    FileStorage.StorageIo(true, None)
  }

  /** Record `j` of `l` once the results are written: the first record
      carrying an id of the results gets that id's text and error and is
      marked processed; every other record is as it was. */
  function Rewritten(l: seq<FileStorage.StoredFile>, keys: seq<string>,
                     entries: map<string, OcrService.OcrResult>, j: nat): FileStorage.StoredFile
    requires j < |l|
  {
    var id := l[j].id;
    if id in keys && id in entries && FileStorage.FindIndex(l, id) == Some(j) then
      FileStorage.WithOcr(l[j], TextOf(entries[id]), ErrorOf(entries[id]))
    else l[j]
  }

  /** Two lists whose records carry the same ids, position by position. */
  predicate SameIds(a: seq<FileStorage.StoredFile>, b: seq<FileStorage.StoredFile>) {
    |a| == |b| && forall j :: 0 <= j < |a| ==> a[j].id == b[j].id
  }

  /** The first position of an id depends only on the ids. */
  lemma {:induction false} FindIndexSameIds(a: seq<FileStorage.StoredFile>, b: seq<FileStorage.StoredFile>, id: string)
    requires SameIds(a, b)
    ensures FileStorage.FindIndex(a, id) == FileStorage.FindIndex(b, id)
  {
    if a != [] && a[0].id != id {
      assert a[0].id == b[0].id;
      assert SameIds(a[1..], b[1..]) by {
        forall j | 0 <= j < |a| - 1
          ensures a[1..][j].id == b[1..][j].id
        {
          assert a[j + 1].id == b[j + 1].id;
        }
      }
      FindIndexSameIds(a[1..], b[1..], id);
    }
  }

  /** Writing the results to healthy storage rewrites, for each id of the
      results, the first record carrying it (a success sets the text and
      clears the error, a failure sets the error and clears the text) and
      leaves every other record as it was. */
  lemma {:induction false} WriteBackHealthy(l: seq<FileStorage.StoredFile>, keys: seq<string>,
                                            entries: map<string, OcrService.OcrResult>,
                                            ios: string -> FileStorage.StorageIo)
    requires forall id :: ios(id) == Healthy()
    ensures var r := WriteBack(Some(l), keys, entries, ios);
      && r.Some? && |r.value| == |l|
      && forall j :: 0 <= j < |l| ==> r.value[j] == Rewritten(l, keys, entries, j)
  {
    if keys != [] {
      var m := |keys| - 1;
      var id := keys[m];
      var prefix := keys[..m];
      WriteBackHealthy(l, prefix, entries, ios);
      var p := WriteBack(Some(l), prefix, entries, ios).value;
      assert SameIds(l, p) by {
        forall j | 0 <= j < |l|
          ensures l[j].id == p[j].id
        {
          assert p[j] == Rewritten(l, prefix, entries, j);
        }
      }
      var r := WriteBack(Some(l), keys, entries, ios);
      assert forall x :: x in keys <==> x in prefix || x == id;
      if id in entries {
        FindIndexSameIds(l, p, id);
        var t, e := TextOf(entries[id]), ErrorOf(entries[id]);
        assert r == FileStorage.UpdatedSlot(Some(p), id, t, e, ios(id));
        forall j | 0 <= j < |l|
          ensures r.value[j] == Rewritten(l, keys, entries, j)
        {
          assert p[j] == Rewritten(l, prefix, entries, j);
        }
      } else {
        forall j | 0 <= j < |l|
          ensures r.value[j] == Rewritten(l, keys, entries, j)
        {
          assert p[j] == Rewritten(l, prefix, entries, j);
        }
      }
    }
  }

  /** `a` is `b` with at most its OCR fields changed. */
  predicate SameApartFromOcr(a: FileStorage.StoredFile, b: FileStorage.StoredFile) {
    a.(ocrText := b.ocrText, ocrError := b.ocrError, ocrProcessed := b.ocrProcessed) == b
  }

  /** Whatever storage does on each update, writing results back adds or
      removes no record and changes nothing but OCR fields; absent storage
      stays absent. */
  lemma {:induction false} WriteBackOnlyOcr(slot: Option<seq<FileStorage.StoredFile>>, keys: seq<string>,
                                            entries: map<string, OcrService.OcrResult>,
                                            ios: string -> FileStorage.StorageIo)
    ensures var r := WriteBack(slot, keys, entries, ios);
      && (r.Some? <==> slot.Some?)
      && (slot.Some? ==> |r.value| == |slot.value|)
      && (slot.Some? ==> forall j :: 0 <= j < |slot.value| ==> SameApartFromOcr(r.value[j], slot.value[j]))
  {
    if keys != [] {
      var m := |keys| - 1;
      WriteBackOnlyOcr(slot, keys[..m], entries, ios);
    }
  }

  /** After a write-back to healthy storage, each rewritten record is marked
      processed and carries exactly one of `ocrText` and `ocrError`: the
      text of a success or the message of a failure. */
  lemma WriteBackOneField(l: seq<FileStorage.StoredFile>, keys: seq<string>,
                          entries: map<string, OcrService.OcrResult>,
                          ios: string -> FileStorage.StorageIo, j: nat)
    requires forall id :: ios(id) == Healthy()
    requires j < |l| && l[j].id in keys && l[j].id in entries && FileStorage.FindIndex(l, l[j].id) == Some(j)
    ensures WriteBack(Some(l), keys, entries, ios).Some?
    ensures |WriteBack(Some(l), keys, entries, ios).value| == |l|
    ensures WriteBack(Some(l), keys, entries, ios).value[j].ocrProcessed == Some(true)
    ensures WriteBack(Some(l), keys, entries, ios).value[j].ocrText.Some?
        != WriteBack(Some(l), keys, entries, ios).value[j].ocrError.Some?
    ensures entries[l[j].id].Text? ==> WriteBack(Some(l), keys, entries, ios).value[j].ocrText == Some(entries[l[j].id].text)
    ensures entries[l[j].id].Failed? ==> WriteBack(Some(l), keys, entries, ios).value[j].ocrError == Some(entries[l[j].id].error)
  {
    WriteBackHealthy(l, keys, entries, ios);
  }

  /** The results of a run over `selected`. */
  function RunResults(selected: seq<FileStorage.StoredFile>, decoder: OcrService.Decoder,
                      replies: seq<Result<string, Thrown>>, orders: seq<seq<nat>>): OcrService.OcrResults
    requires |replies| == |OcrService.Processable(selected)|
    requires |orders| == OcrService.WaveCount(|OcrService.Processable(selected)|)
  {
    OcrService.BatchResults(OcrService.Processable(selected), decoder, replies, orders)
  }

  /** The progress reports of a run over `selected`. */
  function RunEvents(selected: seq<FileStorage.StoredFile>, decoder: OcrService.Decoder,
                     replies: seq<Result<string, Thrown>>, orders: seq<seq<nat>>): seq<OcrService.OcrProgress>
    requires |replies| == |OcrService.Processable(selected)|
    requires |orders| == OcrService.WaveCount(|OcrService.Processable(selected)|)
  {
    OcrService.BatchEvents(OcrService.Processable(selected), decoder, replies, orders, true)
  }

  /** The stores and storage after a run over `selected` that started from
      `slot0`, `files0` and the logs `progress0` and `running0`: what
      `RunSelected` ensures. */
  ghost predicate RunOutcome(selected: seq<FileStorage.StoredFile>, decoder: OcrService.Decoder,
                             replies: seq<Result<string, Thrown>>, orders: seq<seq<nat>>, batchThrows: bool,
                             writeIos: string -> FileStorage.StorageIo, refreshOk: bool,
                             slot0: Option<seq<FileStorage.StoredFile>>, files0: seq<FileStorage.StoredFile>,
                             progress0: seq<OcrService.OcrProgress>, running0: seq<bool>,
                             slot: Option<seq<FileStorage.StoredFile>>, files: seq<FileStorage.StoredFile>,
                             progress: seq<OcrService.OcrProgress>, running: seq<bool>,
                             ocrRunning: bool, ocrProgress: Option<OcrService.OcrProgress>)
    requires |replies| == |OcrService.Processable(selected)|
    requires |orders| == OcrService.WaveCount(|OcrService.Processable(selected)|)
  {
    && running == running0 + [true, false] && !ocrRunning
    && |progress| > 0 && ocrProgress == Some(progress[|progress| - 1])
    && (batchThrows ==>
          && progress == progress0 + [StartProgress(|selected|), FailedProgress(|selected|)]
          && slot == slot0 && files == files0)
    && (!batchThrows ==>
          && progress == progress0 + [StartProgress(|selected|)]
               + RunEvents(selected, decoder, replies, orders) + [CompleteProgress(|selected|)]
          && RunResults(selected, decoder, replies, orders).Valid()
          && slot == WriteBack(slot0, RunResults(selected, decoder, replies, orders).keys,
                               RunResults(selected, decoder, replies, orders).entries, writeIos)
          && files == FileStorage.ReadSlot(slot, refreshOk))
  }

  /** The stores of the side panel, over one storage area. */
  class FilesStore {
    const storage: FileStorage.Storage
    /** `files` */
    var files: seq<FileStorage.StoredFile>
    /** `ocrProgress` and every value it was set to */
    var ocrProgress: Option<OcrService.OcrProgress>
    var progressLog: seq<OcrService.OcrProgress>
    /** `ocrRunning` and every value it was set to */
    var ocrRunning: bool
    var runningLog: seq<bool>

    /** The stores' initial values: no files, no progress, not running. */
    constructor (storage: FileStorage.Storage)
      ensures this.storage == storage
      ensures files == [] && ocrProgress == None && progressLog == [] && !ocrRunning && runningLog == []
    {
      this.storage := storage;
      files := [];
      ocrProgress := None;
      progressLog := [];
      ocrRunning := false;
      runningLog := [];
    }

    /** `ocrProgress.set(p)` */
    method SetProgress(p: OcrService.OcrProgress)
      modifies this
      ensures ocrProgress == Some(p) && progressLog == old(progressLog) + [p]
      ensures files == old(files) && ocrRunning == old(ocrRunning) && runningLog == old(runningLog)
    {
      ocrProgress := Some(p);
      progressLog := progressLog + [p];
    }

    /** `ocrRunning.set(b)` */
    method SetRunning(b: bool)
      modifies this
      ensures ocrRunning == b && runningLog == old(runningLog) + [b]
      ensures files == old(files) && ocrProgress == old(ocrProgress) && progressLog == old(progressLog)
    {
      ocrRunning := b;
      runningLog := runningLog + [b];
    }

    /** `refreshFiles` (and `initializeFiles`): the store takes the stored
        list, the empty list when the read fails. */
    method RefreshFiles(readOk: bool)
      modifies this
      ensures files == storage.Read(readOk)
      ensures ocrProgress == old(ocrProgress) && progressLog == old(progressLog)
      ensures ocrRunning == old(ocrRunning) && runningLog == old(runningLog)
    {
      files := storage.Read(readOk);
    }

    /** The `chrome.storage.onChanged` listener. `change` is absent when the
        change does not touch 'extension-files', and holds the new value
        (absent when the key was removed) otherwise. */
    method OnStorageChanged(areaName: string, change: Option<Option<seq<FileStorage.StoredFile>>>)
      modifies this
      ensures areaName == "local" && change.Some? ==> files == change.value.GetOr([])
      ensures !(areaName == "local" && change.Some?) ==> files == old(files)
      ensures ocrProgress == old(ocrProgress) && progressLog == old(progressLog)
      ensures ocrRunning == old(ocrRunning) && runningLog == old(runningLog)
    {
      if areaName == "local" && change.Some? {
        files := change.value.GetOr([]);
      }
    }

    /** `addFiles`: saves the files; refreshes the store only when the save
        returned; reports a shortfall, or the error the save threw. */
    method AddFiles(newFiles: seq<FileStorage.LocalFile>, envs: seq<FileStorage.SaveEnv>, refreshOk: bool)
      returns (savedFiles: seq<FileStorage.StoredFile>, error: Option<string>)
      requires |envs| == |newFiles|
      modifies this, storage
      ensures var run := FileStorage.SaveAll(old(storage.slot), storage.chromeAvailable, newFiles, envs);
        && storage.slot == run.slot
        && match FileStorage.SaveFilesResult(run)
           case Err(e) =>
             savedFiles == [] && error == Some(e.MessageOr(FailedToSave)) && files == old(files)
           case Ok(saved) =>
             && savedFiles == saved && files == storage.Read(refreshOk)
             && error == (if |saved| < |newFiles| then Some(PartialSaveMessage(|saved|, |newFiles|)) else None)
      ensures ocrProgress == old(ocrProgress) && progressLog == old(progressLog)
      ensures ocrRunning == old(ocrRunning) && runningLog == old(runningLog)
    {
      var r := storage.SaveFiles(newFiles, envs);
      if r.Err? {
        return [], Some(r.error.MessageOr(FailedToSave));
      }
      savedFiles := r.value;
      RefreshFiles(refreshOk);
      if |savedFiles| < |newFiles| {
        return savedFiles, Some(PartialSaveMessage(|savedFiles|, |newFiles|));
      }
      return savedFiles, None;
    }

    /** `removeFile`: deletes, and refreshes the store only on success. */
    method RemoveFile(fileId: string, io: FileStorage.StorageIo, refreshOk: bool) returns (success: bool)
      modifies this, storage
      ensures success <==> io.writeError.None?
      ensures success ==> storage.slot == Some(FileStorage.WithoutId(FileStorage.ReadSlot(old(storage.slot), io.readOk), fileId))
                          && files == storage.Read(refreshOk)
      ensures !success ==> storage.slot == old(storage.slot) && files == old(files)
      ensures ocrProgress == old(ocrProgress) && progressLog == old(progressLog)
      ensures ocrRunning == old(ocrRunning) && runningLog == old(runningLog)
    {
      success := storage.DeleteFile(fileId, io);
      if success {
        RefreshFiles(refreshOk);
      }
    }

    /** `clearAllFiles`: removes the key, and empties the store only on
        success. */
    method ClearAllFiles(removeError: Option<Thrown>) returns (success: bool)
      modifies this, storage
      ensures success <==> removeError.None?
      ensures success ==> storage.slot == None && files == []
      ensures !success ==> storage.slot == old(storage.slot) && files == old(files)
      ensures ocrProgress == old(ocrProgress) && progressLog == old(progressLog)
      ensures ocrRunning == old(ocrRunning) && runningLog == old(runningLog)
    {
      success := storage.DeleteAllFiles(removeError);
      if success {
        files := [];
      }
    }

    /** The write-back loop of a run: `updateFileOCR` for each entry of the
        results, in the map's key order. */
    method WriteResults(results: OcrService.OcrResults, ios: string -> FileStorage.StorageIo)
      requires results.Valid()
      modifies storage
      ensures storage.slot == WriteBack(old(storage.slot), results.keys, results.entries, ios)
    {
      var i := 0;
      while i < |results.keys|
        invariant 0 <= i <= |results.keys|
        invariant storage.slot == WriteBack(old(storage.slot), results.keys[..i], results.entries, ios)
      {
        var fileId := results.keys[i];
        var result := results.entries[fileId];
        var _ := storage.UpdateFileOCR(fileId, TextOf(result), ErrorOf(result), ios(fileId));
        assert results.keys[..i + 1][..i] == results.keys[..i];
        i := i + 1;
      }
      assert results.keys[..i] == results.keys;
    }

    /** The part of `runOCROnAllFiles` and `runOCROnSpecificFiles` after the
        selection: sets the flag and the starting progress, runs the batch
        with progress reporting, writes the results back, refreshes the
        store, and sets the final progress; a batch that throws
        (`batchThrows`) leaves storage and the file store as they were and
        ends with the failure progress. The flag is reset on both paths. */
    method RunSelected(selected: seq<FileStorage.StoredFile>, decoder: OcrService.Decoder,
                       replies: seq<Result<string, Thrown>>, orders: seq<seq<nat>>, batchThrows: bool,
                       writeIos: string -> FileStorage.StorageIo, refreshOk: bool)
      requires |replies| == |OcrService.Processable(selected)|
      requires OcrService.ValidOrders(|OcrService.Processable(selected)|, orders)
      modifies this, storage
      ensures RunOutcome(selected, decoder, replies, orders, batchThrows, writeIos, refreshOk,
                         old(storage.slot), old(files), old(progressLog), old(runningLog),
                         storage.slot, files, progressLog, runningLog, ocrRunning, ocrProgress)
    {
      var n := |selected|;
      SetRunning(true);
      SetProgress(StartProgress(n));
      if batchThrows {
        SetProgress(FailedProgress(n));
      } else {
        var results, events := OcrService.ProcessMultipleFilesOCR(selected, decoder, replies, orders, true);
        ReportAll(events);
        OcrService.BatchResultsKeys(OcrService.Processable(selected), decoder, replies, orders, "");
        WriteResults(results, writeIos);
        RefreshFiles(refreshOk);
        SetProgress(CompleteProgress(n));
      }
      SetRunning(false);
    }

    /** The progress callback `(progress) => ocrProgress.set(progress)`,
        called with each report of the batch in turn. */
    method ReportAll(events: seq<OcrService.OcrProgress>)
      modifies this
      ensures progressLog == old(progressLog) + events
      ensures events != [] ==> ocrProgress == Some(events[|events| - 1])
      ensures events == [] ==> ocrProgress == old(ocrProgress)
      ensures files == old(files) && ocrRunning == old(ocrRunning) && runningLog == old(runningLog)
    {
      var i := 0;
      while i < |events|
        invariant 0 <= i <= |events|
        invariant progressLog == old(progressLog) + events[..i]
        invariant i > 0 ==> ocrProgress == Some(events[i - 1])
        invariant i == 0 ==> ocrProgress == old(ocrProgress)
        invariant files == old(files) && ocrRunning == old(ocrRunning) && runningLog == old(runningLog)
      {
        SetProgress(events[i]);
        assert events[..i + 1] == events[..i] + [events[i]];
        i := i + 1;
      }
      assert events[..i] == events;
    }

    /** `runOCROnAllFiles`: does nothing on empty storage; otherwise runs
        every stored file. */
    method RunOCROnAllFiles(readOk: bool, decoder: OcrService.Decoder, replies: seq<Result<string, Thrown>>,
                            orders: seq<seq<nat>>, batchThrows: bool,
                            writeIos: string -> FileStorage.StorageIo, refreshOk: bool)
      requires |replies| == |OcrService.Processable(storage.Read(readOk))|
      requires OcrService.ValidOrders(|OcrService.Processable(storage.Read(readOk))|, orders)
      modifies this, storage
      ensures FileStorage.ReadSlot(old(storage.slot), readOk) == [] ==> unchanged(this) && storage.slot == old(storage.slot)
      ensures FileStorage.ReadSlot(old(storage.slot), readOk) != [] ==>
        RunOutcome(FileStorage.ReadSlot(old(storage.slot), readOk), decoder, replies, orders, batchThrows, writeIos,
                   refreshOk, old(storage.slot), old(files), old(progressLog), old(runningLog), storage.slot, files,
                   progressLog, runningLog, ocrRunning, ocrProgress)
    {
      var allFiles := storage.Read(readOk);
      if |allFiles| == 0 {
        return;
      }
      RunSelected(allFiles, decoder, replies, orders, batchThrows, writeIos, refreshOk);
    }

    /** `runOCROnSpecificFiles`: does nothing for an empty id list or when no
        stored file has one of the ids; otherwise runs the stored files
        whose id is listed, in storage order. */
    method RunOCROnSpecificFiles(fileIds: seq<string>, readOk: bool, decoder: OcrService.Decoder,
                                 replies: seq<Result<string, Thrown>>, orders: seq<seq<nat>>, batchThrows: bool,
                                 writeIos: string -> FileStorage.StorageIo, refreshOk: bool)
      requires |replies| == |OcrService.Processable(Selected(storage.Read(readOk), fileIds))|
      requires OcrService.ValidOrders(|OcrService.Processable(Selected(storage.Read(readOk), fileIds))|, orders)
      modifies this, storage
      ensures fileIds == [] || Selected(FileStorage.ReadSlot(old(storage.slot), readOk), fileIds) == [] ==>
        unchanged(this) && storage.slot == old(storage.slot)
      ensures fileIds != [] && Selected(FileStorage.ReadSlot(old(storage.slot), readOk), fileIds) != [] ==>
        RunOutcome(Selected(FileStorage.ReadSlot(old(storage.slot), readOk), fileIds), decoder, replies, orders,
                   batchThrows, writeIos, refreshOk, old(storage.slot), old(files), old(progressLog), old(runningLog),
                   storage.slot, files, progressLog, runningLog, ocrRunning, ocrProgress)
    {
      if |fileIds| == 0 {
        return;
      }
      var allFiles := storage.Read(readOk);
      var filesToProcess := Selected(allFiles, fileIds);
      if |filesToProcess| == 0 {
        return;
      }
      RunSelected(filesToProcess, decoder, replies, orders, batchThrows, writeIos, refreshOk);
    }
  }
}
