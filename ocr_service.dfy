/** OCR over stored files: turning a stored data URL back into the bytes of
    a file, running one file through the OCR endpoint, and running a list of
    files in waves of three while reporting progress.

    Two collaborators are given as data: the browser's base64 decoder
    `decoder`, as the table of the inputs it accepts with their decodings, and
    the request to '/api/ocr', as the reply it yields (the reply's `text`
    field, or what the request threw). A wave's files are launched in order:
    each reports its start and decodes before the next is launched, and one
    whose decoding throws settles on the spot. The requests then settle in
    any order, given per wave as `orders`; the next wave starts only once
    every request of this one has settled. */
module OcrService {
  import opened Base
  import Text
  import OcrApiService
  import FileStorage

  /** What the results map holds for one file id: `{ text }` or `{ error }`. */
  datatype OcrResult = Text(text: string) | Failed(error: string)

  /** A progress value `num / den`. */
  datatype Fraction = Fraction(num: nat, den: nat)

  /** The `status` line of a progress report, by the form of its text. */
  datatype Status =
    | Processing(file: string)
    | Completed(file: string)
    | FailedFile(file: string)
    | Starting
    | AllComplete
    | AllFailed
  {
    /** The text shown for the status. */
    function Render(): string {
      match this
      case Processing(f) => "Processing " + f + "..."
      case Completed(f) => "Completed " + f
      case FailedFile(f) => "Failed: " + f
      case Starting => "Starting OCR processing..."
      case AllComplete => "OCR processing complete!"
      case AllFailed => "OCR processing failed"
    }
  }

  datatype OcrProgress = OcrProgress(
    currentFile: string,
    currentIndex: nat,
    totalFiles: nat,
    progress: Fraction,
    status: Status)

  newtype byte = x: int | 0 <= x < 256

  /** The `File` handed to the endpoint. */
  datatype BlobFile = BlobFile(bytes: seq<byte>, name: string, mimeType: string)

  /** `decoder`: `valid` maps each string it accepts to its decoding; on any
      other input it throws `invalid` (an 'InvalidCharacterError'). */
  datatype Decoder = Decoder(valid: map<string, string>, invalid: Thrown) {
    function Atob(s: string): (r: Result<string, Thrown>)
      ensures r.Ok? <==> s in valid
      ensures r.Ok? ==> r.value == valid[s]
      ensures r.Err? ==> r.error == invalid
    {
      if s in valid then Ok(valid[s]) else Err(invalid)
    }

    /** Like `atob`, every decoding is a binary string: each character's
        code is below 256. */
    predicate Binary() {
      forall s :: s in valid ==> forall i :: 0 <= i < |valid[s]| ==> valid[s][i] as int < 256
    }
  }

  /** A JavaScript `Map` from file id to result: its keys in insertion order
      and its entries. */
  datatype OcrResults = OcrResults(keys: seq<string>, entries: map<string, OcrResult>) {
    /** The keys are exactly the entries' keys, each listed once. */
    ghost predicate Valid() {
      && (forall i, j :: 0 <= i < j < |keys| ==> keys[i] != keys[j])
      && (forall id :: id in entries <==> id in keys)
    }

    /** `map.set(id, v)`: a new key goes to the end; an existing key keeps
        its place and gets the new value. */
    function Set(id: string, v: OcrResult): (r: OcrResults)
      ensures r.entries == entries[id := v]
      ensures id in entries ==> r.keys == keys
      ensures id !in entries ==> r.keys == keys + [id]
    {
      if id in entries then OcrResults(keys, entries[id := v])
      else OcrResults(keys + [id], entries[id := v])
    }

    /** Setting keeps the keys and the entries in step. */
    lemma SetKeepsValid(id: string, v: OcrResult)
      requires Valid()
      ensures Set(id, v).Valid()
    {
    }
  }

  function EmptyResults(): (r: OcrResults)
    ensures r.Valid() && r.keys == [] && r.entries == map[]
  {
    OcrResults([], map[])
  }

  /** `files.filter((f) => isOCRSupported(f.type))` */
  function Processable(files: seq<FileStorage.StoredFile>): (r: seq<FileStorage.StoredFile>)
    ensures |r| <= |files|
    ensures forall k :: 0 <= k < |r| ==> OcrApiService.IsOCRSupported(r[k].fileType)
    ensures forall f :: f in files && OcrApiService.IsOCRSupported(f.fileType) ==> f in r
    ensures forall f :: f in r ==> f in files
  {
    if files == [] then []
    else if OcrApiService.IsOCRSupported(files[0].fileType) then [files[0]] + Processable(files[1..])
    else Processable(files[1..])
  }

  /** Filtering keeps the input order: it distributes over concatenation. */
  lemma {:induction false} ProcessableAppend(a: seq<FileStorage.StoredFile>, b: seq<FileStorage.StoredFile>)
    ensures Processable(a + b) == Processable(a) + Processable(b)
  {
    if a == [] {
      assert a + b == b;
    } else {
      assert (a + b)[0] == a[0] && (a + b)[1..] == a[1..] + b;
      ProcessableAppend(a[1..], b);
    }
  }

  /** The characters of `s` before its first comma (all of `s` without one). */
  function UpToComma(s: string): (r: string)
    ensures r <= s && ',' !in r
    ensures |r| == |s| || s[|r|] == ','
  {
    if s == [] || s[0] == ',' then [] else [s[0]] + UpToComma(s[1..])
  }

  /** What `atob(undefined)` decodes. */
  const UndefinedText: string := "undefined"

  const UnknownError: string := "Unknown error"

  /** `dataUrl.split(',')[1]`: the text between the first and the second
      comma, or the string 'undefined' (what `decoder.Atob(undefined)`
      decodes) when there is no comma. */
  function DataSegment(dataUrl: string): string {
    if dataUrl == [] then UndefinedText
    else if dataUrl[0] == ',' then UpToComma(dataUrl[1..])
    else DataSegment(dataUrl[1..])
  }

  /** Without a comma there is no second field. */
  lemma {:induction false} DataSegmentNoComma(dataUrl: string)
    requires ',' !in dataUrl
    ensures DataSegment(dataUrl) == UndefinedText
  {
    if dataUrl != [] {
      assert dataUrl[0] in dataUrl;
      assert forall c :: c in dataUrl[1..] ==> c in dataUrl;
      DataSegmentNoComma(dataUrl[1..]);
    }
  }

  /** With a first comma after `head`, the segment is what follows it up to
      the next comma. */
  lemma {:induction false} DataSegmentAfterFirstComma(head: string, rest: string)
    requires ',' !in head
    ensures DataSegment(head + "," + rest) == UpToComma(rest)
  {
    var s := head + "," + rest;
    if head == [] {
      assert s[0] == ',' && s[1..] == rest;
    } else {
      assert head[0] in head;
      assert s[0] == head[0] && s[1..] == head[1..] + "," + rest;
      assert forall c :: c in head[1..] ==> c in head;
      DataSegmentAfterFirstComma(head[1..], rest);
    }
  }

  /** On a data URL 'data:<type>;base64,<payload>' (no comma in the header
      or the payload) the decoded segment is the payload. */
  lemma DataSegmentOfDataUrl(header: string, payload: string)
    requires ',' !in header && ',' !in payload
    ensures DataSegment(header + "," + payload) == payload
  {
    DataSegmentAfterFirstComma(header, payload);
    UpToCommaWhole(payload);
  }

  /** Without a comma, `UpToComma` keeps the whole string. */
  lemma {:induction false} UpToCommaWhole(s: string)
    requires ',' !in s
    ensures UpToComma(s) == s
  {
    if s != [] {
      assert s[0] in s;
      assert forall c :: c in s[1..] ==> c in s;
      UpToCommaWhole(s[1..]);
    }
  }

  /** `u8arr[n] = bstr.charCodeAt(n)`: a typed-array store keeps the low
      eight bits of the code. */
  function ByteOf(c: char): byte {
    (c as int % 256) as byte
  }

  /** The bytes of a binary string. */
  function Bytes(bstr: string): (r: seq<byte>)
    ensures |r| == |bstr|
    ensures forall i :: 0 <= i < |bstr| ==> r[i] == ByteOf(bstr[i])
  {
    if bstr == [] then [] else [ByteOf(bstr[0])] + Bytes(bstr[1..])
  }

  /** `decoder` yields characters below 256, and on those the conversion to
      bytes loses nothing: each byte is the character's code. */
  lemma {:induction false} BytesKeepCodes(bstr: string)
    requires forall i :: 0 <= i < |bstr| ==> bstr[i] as int < 256
    ensures forall i :: 0 <= i < |bstr| ==> Bytes(bstr)[i] as int == bstr[i] as int
  {
    forall i | 0 <= i < |bstr|
      ensures Bytes(bstr)[i] as int == bstr[i] as int
    {
      ByteOfSmall(bstr[i]);
    }
  }

  /** With a binary decoder, the file's bytes are exactly the codes of the
      decoded payload. */
  lemma DecodedBytesAreCodes(dataUrl: string, filename: string, mimeType: string, decoder: Decoder)
    requires decoder.Binary() && DataSegment(dataUrl) in decoder.valid
    ensures DecodeDataUrl(dataUrl, filename, mimeType, decoder).Ok?
    ensures |DecodeDataUrl(dataUrl, filename, mimeType, decoder).value.bytes| == |decoder.valid[DataSegment(dataUrl)]|
    ensures forall i :: 0 <= i < |decoder.valid[DataSegment(dataUrl)]| ==>
      DecodeDataUrl(dataUrl, filename, mimeType, decoder).value.bytes[i] as int == decoder.valid[DataSegment(dataUrl)][i] as int
  {
    BytesKeepCodes(decoder.valid[DataSegment(dataUrl)]);
  }

  lemma ByteOfSmall(c: char)
    requires c as int < 256
    ensures ByteOf(c) as int == c as int
  {
  }

  /** What `dataUrlToFile` produces: the decoded bytes under the given name
      and type, or what `decoder` threw. */
  function DecodeDataUrl(dataUrl: string, filename: string, mimeType: string,
                         decoder: Decoder): Result<BlobFile, Thrown>
  {
    match decoder.Atob(DataSegment(dataUrl))
    case Err(e) => Err(e)
    case Ok(bstr) => Ok(BlobFile(Bytes(bstr), filename, mimeType))
  }

  /** `dataUrlToFile`: fills a byte array from its last index down. */
  method DataUrlToFile(dataUrl: string, filename: string, mimeType: string,
                       decoder: Decoder) returns (r: Result<BlobFile, Thrown>)
    ensures r == DecodeDataUrl(dataUrl, filename, mimeType, decoder)
  {
    var decoded := decoder.Atob(DataSegment(dataUrl));
    if decoded.Err? {
      return Err(decoded.error);
    }
    var bstr := decoded.value;
    var n := |bstr|;
    var u8arr := new byte[n];
    while n > 0
      invariant 0 <= n <= |bstr| == u8arr.Length
      invariant forall i :: n <= i < |bstr| ==> u8arr[i] == ByteOf(bstr[i])
    {
      n := n - 1;
      u8arr[n] := ByteOf(bstr[n]);
    }
    assert u8arr[..] == Bytes(bstr);
    return Ok(BlobFile(u8arr[..], filename, mimeType));
  }

  /** One OCR attempt on a stored file: decode it, then extract its text. */
  function Attempt(file: FileStorage.StoredFile, decoder: Decoder,
                   reply: Result<string, Thrown>): Result<string, Thrown>
  {
    match DecodeDataUrl(file.dataUrl, file.name, file.fileType, decoder)
    case Err(e) => Err(e)
    case Ok(blob) => OcrApiService.ExtractTextFromImage(|blob.bytes|, reply)
  }

  /** What the results map records for a file: its text, or the message of
      what was thrown ('Unknown error' for a non-`Error`). */
  function Outcome(file: FileStorage.StoredFile, decoder: Decoder,
                   reply: Result<string, Thrown>): (r: OcrResult)
    ensures r.Text? <==> Attempt(file, decoder, reply).Ok?
  {
    match Attempt(file, decoder, reply)
    case Ok(t) => Text(t)
    case Err(e) => Failed(e.MessageOr(UnknownError))
  }

  /** A decode that fails never reaches the endpoint: its error is recorded
      whatever the endpoint would have answered. */
  lemma DecodeFailureSkipsRequest(file: FileStorage.StoredFile, decoder: Decoder,
                                  reply1: Result<string, Thrown>, reply2: Result<string, Thrown>)
    requires decoder.Atob(DataSegment(file.dataUrl)).Err?
    ensures Outcome(file, decoder, reply1) == Outcome(file, decoder, reply2)
    ensures Outcome(file, decoder, reply1) == Failed(decoder.Atob(DataSegment(file.dataUrl)).error.MessageOr(UnknownError))
  {
  }

  function StartEvent(name: string, index: nat, total: nat): OcrProgress {
    OcrProgress(name, index, total, Fraction(index, total), Processing(name))
  }

  function EndEvent(name: string, index: nat, total: nat, ok: bool): OcrProgress {
    OcrProgress(name, index + 1, total, Fraction(index + 1, total),
                if ok then Completed(name) else FailedFile(name))
  }

  /** `processFileOCR`: reports the start (0 of 1) and, only on success, the
      completion (1 of 1); returns the text or rethrows what was thrown. */
  method ProcessFileOCR(file: FileStorage.StoredFile, decoder: Decoder,
                        reply: Result<string, Thrown>, reporting: bool)
    returns (r: Result<string, Thrown>, events: seq<OcrProgress>)
    ensures r == Attempt(file, decoder, reply)
    ensures !reporting ==> events == []
    ensures reporting && r.Ok? ==> events == [StartEvent(file.name, 0, 1), EndEvent(file.name, 0, 1, true)]
    ensures reporting && r.Err? ==> events == [StartEvent(file.name, 0, 1)]
  {
    events := [];
    if reporting {
      events := events + [StartEvent(file.name, 0, 1)];
    }
    var fileObj := DataUrlToFile(file.dataUrl, file.name, file.fileType, decoder);
    if fileObj.Err? {
      return Err(fileObj.error), events;
    }
    r := OcrApiService.ExtractTextFromImage(|fileObj.value.bytes|, reply);
    if r.Ok? && reporting {
      events := events + [EndEvent(file.name, 0, 1, true)];
    }
  }

  /** The indices `a, a+1, ..., b-1`. */
  function Range(a: nat, b: nat): (r: seq<nat>)
    requires a <= b
    ensures |r| == b - a && forall k :: 0 <= k < |r| ==> r[k] == a + k
    decreases b - a
  {
    if a == b then [] else [a] + Range(a + 1, b)
  }

  lemma RangeSnoc(a: nat, b: nat)
    requires a <= b
    ensures Range(a, b + 1) == Range(a, b) + [b]
  {
  }

  lemma RangeAppend(a: nat, b: nat, c: nat)
    requires a <= b <= c
    ensures Range(a, b) + Range(b, c) == Range(a, c)
  {
  }

  /** How many times `x` occurs in `s`. */
  function Count(s: seq<nat>, x: nat): nat
    decreases |s|
  {
    if s == [] then 0 else Count(s[..|s| - 1], x) + (if s[|s| - 1] == x then 1 else 0)
  }

  lemma {:induction false} CountAppend(a: seq<nat>, b: seq<nat>, x: nat)
    ensures Count(a + b, x) == Count(a, x) + Count(b, x)
    decreases |b|
  {
    if b == [] {
      assert a + b == a;
    } else {
      var m := |b| - 1;
      CountAppend(a, b[..m], x);
      assert (a + b)[..|a| + m] == a + b[..m];
    }
  }

  /** An element of `s` occurs in it. */
  lemma {:induction false} CountMember(s: seq<nat>, i: nat)
    requires i < |s|
    ensures Count(s, s[i]) >= 1
    decreases |s|
  {
    var m := |s| - 1;
    if i < m {
      CountMember(s[..m], i);
    }
  }

  function Min(a: nat, b: nat): nat {
    if a <= b then a else b
  }

  /** The waves of the loop `for (i = start; i < n; i += 3)`: the indices
      `i .. min(i + 3, n) - 1` of each turn. */
  function Waves(start: nat, n: nat): seq<seq<nat>>
    decreases n - start
  {
    if start >= n then [] else [Range(start, Min(start + 3, n))] + Waves(start + 3, n)
  }

  function Flatten(ws: seq<seq<nat>>): seq<nat> {
    if ws == [] then [] else ws[0] + Flatten(ws[1..])
  }

  /** The waves cover every index exactly once and in order, each holds one
      to three indices, and all but the last hold three. */
  lemma {:induction false} WavesPartition(start: nat, n: nat)
    requires start <= n
    ensures Flatten(Waves(start, n)) == Range(start, n)
    ensures forall w :: 0 <= w < |Waves(start, n)| ==> 1 <= |Waves(start, n)[w]| <= 3
    ensures forall w :: 0 <= w < |Waves(start, n)| - 1 ==> |Waves(start, n)[w]| == 3
    decreases n - start
  {
    if start < n {
      var j := Min(start + 3, n);
      if start + 3 <= n {
        WavesPartition(start + 3, n);
        assert Range(start, n) == Range(start, j) + Range(j, n);
      } else {
        assert Waves(start + 3, n) == [];
        assert Waves(start, n) == [Range(start, n)];
        assert Flatten(Waves(start, n)) == Range(start, n) + Flatten([]);
      }
      var ws := Waves(start, n);
      assert ws[1..] == Waves(start + 3, n);
    }
  }

  /** The number of waves over `n` files. */
  function WaveCount(n: nat): nat {
    (n + 2) / 3
  }

  /** One past the last index of wave `w` over `n` files. */
  function WaveEnd(n: nat, w: nat): nat {
    Min(3 * w + 3, n)
  }

  /** Wave `w` of the loop is the index range `3w .. WaveEnd(n, w) - 1`. */
  lemma {:induction false} WavesAt(start: nat, n: nat, w: nat)
    requires start <= n && w < |Waves(start, n)|
    ensures |Waves(start, n)| == (n - start + 2) / 3
    ensures start + 3 * w < n
    ensures Waves(start, n)[w] == Range(start + 3 * w, Min(start + 3 * w + 3, n))
    decreases n - start
  {
    if start + 3 < n {
      assert Waves(start, n)[1..] == Waves(start + 3, n);
      if w > 0 {
        WavesAt(start + 3, n, w - 1);
      } else {
        WavesAt(start + 3, n, 0);
      }
    } else {
      assert Waves(start + 3, n) == [];
    }
  }

  // ----- The batch as a schedule of steps ------------------------------------

  /** A step of `processMultipleFilesOCR`: the file at index `k` of the
      processable files is launched (it reports its start and decodes its
      data URL), or it settles (its outcome is set in the results map and
      its end is reported). */
  datatype Step = Begin(k: nat) | Settle(k: nat)

  /** Decoding the file's data URL throws, so its `processFile` reaches the
      catch before its first `await`. */
  predicate DecodeFails(file: FileStorage.StoredFile, decoder: Decoder) {
    decoder.Atob(DataSegment(file.dataUrl)).Err?
  }

  /** The outcome of each of the files `ps`, `replies[k]` being what the
      request for file `k` would yield. */
  function Outcomes(ps: seq<FileStorage.StoredFile>, decoder: Decoder,
                    replies: seq<Result<string, Thrown>>): (r: seq<OcrResult>)
    requires |replies| == |ps|
    ensures |r| == |ps|
  {
    seq(|ps|, k requires 0 <= k < |ps| => Outcome(ps[k], decoder, replies[k]))
  }

  lemma OutcomesAt(ps: seq<FileStorage.StoredFile>, decoder: Decoder,
                   replies: seq<Result<string, Thrown>>, k: nat)
    requires |replies| == |ps| && k < |ps|
    ensures Outcomes(ps, decoder, replies)[k] == Outcome(ps[k], decoder, replies[k])
  {
  }

  predicate StepsIn(steps: seq<Step>, n: nat) {
    forall i :: 0 <= i < |steps| ==> steps[i].k < n
  }

  /** File `k` is launched: it reports its start and decodes, and one whose
      decoding throws settles on the spot. */
  function LaunchStep(ps: seq<FileStorage.StoredFile>, decoder: Decoder, k: nat): seq<Step>
    requires k < |ps|
  {
    if DecodeFails(ps[k], decoder) then [Begin(k), Settle(k)] else [Begin(k)]
  }

  /** The request of file `k` finishes, if it went out (an index naming no
      file of `ps` does nothing). */
  function FinishStep(ps: seq<FileStorage.StoredFile>, decoder: Decoder, k: nat): seq<Step> {
    if k >= |ps| || DecodeFails(ps[k], decoder) then [] else [Settle(k)]
  }

  /** The synchronous part of the wave over `start .. end - 1`: `batch.map`
      calls `processFile` on each file in order; each reports its start and
      decodes, and one whose decoding throws settles on the spot, before the
      next file is launched. */
  function LaunchSteps(ps: seq<FileStorage.StoredFile>, decoder: Decoder, start: nat, end: nat): (r: seq<Step>)
    requires start <= end <= |ps|
    decreases end - start
  {
    if start == end then []
    else
      LaunchSteps(ps, decoder, start, end - 1) + LaunchStep(ps, decoder, end - 1)
  }

  /** One more launched file extends the launch steps by its own. */
  lemma LaunchStepsSnoc(ps: seq<FileStorage.StoredFile>, decoder: Decoder, prior: seq<Step>, start: nat, k: nat)
    requires start <= k < |ps|
    ensures prior + LaunchSteps(ps, decoder, start, k + 1)
         == prior + LaunchSteps(ps, decoder, start, k) + LaunchStep(ps, decoder, k)
  {
  }

  /** The rest of the wave: the files whose request went out settle in the
      order the requests finish, `order`. */
  function FinishSteps(ps: seq<FileStorage.StoredFile>, decoder: Decoder, order: seq<nat>): (r: seq<Step>)
    decreases |order|
  {
    if order == [] then []
    else
      var m := |order| - 1;
      FinishSteps(ps, decoder, order[..m]) + FinishStep(ps, decoder, order[m])
  }

  /** One more finished request extends the finish steps by its own. */
  lemma FinishStepsSnoc(ps: seq<FileStorage.StoredFile>, decoder: Decoder, prior: seq<Step>, order: seq<nat>, j: nat)
    requires j < |order|
    ensures prior + FinishSteps(ps, decoder, order[..j + 1])
         == prior + FinishSteps(ps, decoder, order[..j]) + FinishStep(ps, decoder, order[j])
  {
    assert order[..j + 1][..j] == order[..j] && order[..j + 1][j] == order[j];
  }

  /** `orders[w]` is the order in which the requests of wave `w` finish: a
      rearrangement of the wave's indices, each listed once. */
  ghost predicate ValidOrders(n: nat, orders: seq<seq<nat>>) {
    && |orders| == WaveCount(n)
    && forall w, x: nat :: 0 <= w < |orders| ==> Count(orders[w], x) == if 3 * w <= x < WaveEnd(n, w) then 1 else 0
  }

  /** A finish order names only indices of its own wave. */
  lemma OrderInRange(n: nat, orders: seq<seq<nat>>, w: nat)
    requires ValidOrders(n, orders) && w < |orders|
    ensures forall i :: 0 <= i < |orders[w]| ==> 3 * w <= orders[w][i] < WaveEnd(n, w)
  {
    forall i | 0 <= i < |orders[w]|
      ensures 3 * w <= orders[w][i] < WaveEnd(n, w) <= n
    {
      CountMember(orders[w], i);
    }
  }

  /** How often the finish order of wave `w` names `x`. */
  lemma OrderCount(n: nat, orders: seq<seq<nat>>, w: nat, x: nat)
    requires ValidOrders(n, orders) && w < |orders|
    ensures Count(orders[w], x) == if 3 * w <= x < WaveEnd(n, w) then 1 else 0
  {
  }

  /** Wave `w` exists exactly when its first index is below `n`. */
  lemma WaveCountBounds(n: nat, w: nat)
    ensures 3 * w < n <==> w < WaveCount(n)
  {
  }

  /** The steps of the first `m` waves: wave `w` is launched only once
      every file of wave `w - 1` has settled (`await Promise.all`). */
  function Schedule(ps: seq<FileStorage.StoredFile>, decoder: Decoder, orders: seq<seq<nat>>, m: nat): (r: seq<Step>)
    requires m <= |orders| && m <= WaveCount(|ps|)
    decreases m
  {
    if m == 0 then []
    else
      var w := m - 1;
      WaveCountBounds(|ps|, w);
      Schedule(ps, decoder, orders, w)
        + LaunchSteps(ps, decoder, 3 * w, WaveEnd(|ps|, w))
        + FinishSteps(ps, decoder, orders[w])
  }

  /** The steps of the whole batch. */
  function BatchSteps(ps: seq<FileStorage.StoredFile>, decoder: Decoder, orders: seq<seq<nat>>): (r: seq<Step>)
    requires |orders| == WaveCount(|ps|)
  {
    Schedule(ps, decoder, orders, |orders|)
  }

  /** The results map after `steps`: each settling file's outcome set under
      its id (a step naming no file of `ps` does nothing). */
  function ResultsOf(ps: seq<FileStorage.StoredFile>, outs: seq<OcrResult>, steps: seq<Step>): OcrResults
    requires |outs| == |ps|
    decreases |steps|
  {
    if steps == [] then EmptyResults()
    else
      var m := |steps| - 1;
      var before := ResultsOf(ps, outs, steps[..m]);
      var k := steps[m].k;
      if steps[m].Settle? && k < |ps| then before.Set(ps[k].id, outs[k]) else before
  }

  /** The report of one step: 'Processing' at `k / n` for a launch,
      'Completed' or 'Failed:' at `(k + 1) / n` for a settlement. */
  function Report(ps: seq<FileStorage.StoredFile>, outs: seq<OcrResult>, s: Step): OcrProgress
    requires |outs| == |ps| && s.k < |ps|
  {
    match s
    case Begin(k) => StartEvent(ps[k].name, k, |ps|)
    case Settle(k) => EndEvent(ps[k].name, k, |ps|, outs[k].Text?)
  }

  /** The progress reports of `steps`, none without a callback (nor for a
      step naming no file of `ps`). */
  function EventsOf(ps: seq<FileStorage.StoredFile>, outs: seq<OcrResult>, steps: seq<Step>,
                    reporting: bool): seq<OcrProgress>
    requires |outs| == |ps|
    decreases |steps|
  {
    if steps == [] || !reporting then []
    else
      var m := |steps| - 1;
      EventsOf(ps, outs, steps[..m], reporting)
        + (if steps[m].k < |ps| then [Report(ps, outs, steps[m])] else [])
  }

  /** The results map of the whole batch. */
  function BatchResults(ps: seq<FileStorage.StoredFile>, decoder: Decoder,
                        replies: seq<Result<string, Thrown>>, orders: seq<seq<nat>>): OcrResults
    requires |replies| == |ps| && |orders| == WaveCount(|ps|)
  {
    ResultsOf(ps, Outcomes(ps, decoder, replies), BatchSteps(ps, decoder, orders))
  }

  /** The progress reports of the whole batch. */
  function BatchEvents(ps: seq<FileStorage.StoredFile>, decoder: Decoder,
                       replies: seq<Result<string, Thrown>>, orders: seq<seq<nat>>,
                       reporting: bool): seq<OcrProgress>
    requires |replies| == |ps| && |orders| == WaveCount(|ps|)
  {
    EventsOf(ps, Outcomes(ps, decoder, replies), BatchSteps(ps, decoder, orders), reporting)
  }

  /** One more step: a settlement sets its outcome; every step adds its
      report when there is a callback. */
  lemma StepSnoc(ps: seq<FileStorage.StoredFile>, outs: seq<OcrResult>, steps: seq<Step>, s: Step, reporting: bool)
    requires |outs| == |ps| && s.k < |ps|
    ensures ResultsOf(ps, outs, steps + [s])
         == if s.Settle? then ResultsOf(ps, outs, steps).Set(ps[s.k].id, outs[s.k]) else ResultsOf(ps, outs, steps)
    ensures EventsOf(ps, outs, steps + [s], reporting)
         == EventsOf(ps, outs, steps, reporting) + (if reporting then [Report(ps, outs, s)] else [])
  {
    assert (steps + [s])[..|steps|] == steps;
  }

  // ----- Running the batch -----------------------------------------------------

  /** `processMultipleFilesOCR`: the processable files run in waves of
      three, each file's outcome going into the map under its id. No
      processable file gives an empty map and no reports. `replies[k]` is
      what the request for the `k`-th processable file would yield and
      `orders[w]` the order in which the requests of wave `w` finish. */
  method ProcessMultipleFilesOCR(files: seq<FileStorage.StoredFile>, decoder: Decoder,
                                 replies: seq<Result<string, Thrown>>, orders: seq<seq<nat>>, reporting: bool)
    returns (results: OcrResults, events: seq<OcrProgress>)
    requires |replies| == |Processable(files)| && ValidOrders(|Processable(files)|, orders)
    ensures results == BatchResults(Processable(files), decoder, replies, orders)
    ensures events == BatchEvents(Processable(files), decoder, replies, orders, reporting)
    ensures Processable(files) == [] ==> results == EmptyResults() && events == []
  {
    var processableFiles := Processable(files);
    if processableFiles == [] {
      return EmptyResults(), [];
    }
    results, events := RunWaves(processableFiles, decoder, replies, orders, reporting);
  }

  /** The loop `for (i = 0; i < n; i += 3)` over the processable files `ps`,
      one wave per turn. */
  method RunWaves(ps: seq<FileStorage.StoredFile>, decoder: Decoder,
                  replies: seq<Result<string, Thrown>>, orders: seq<seq<nat>>, reporting: bool)
    returns (results: OcrResults, events: seq<OcrProgress>)
    requires |replies| == |ps| && ValidOrders(|ps|, orders)
    ensures results == BatchResults(ps, decoder, replies, orders)
    ensures events == BatchEvents(ps, decoder, replies, orders, reporting)
  {
    results, events := EmptyResults(), [];
    var i := 0;
    var w := 0;
    while i < |ps|
      invariant && w <= |orders| && i == 3 * w
                && (i < |ps| <==> w < |orders|)
                && (results, events) == AfterWaves(ps, decoder, replies, orders, w, reporting)
      decreases |ps| - i
    {
      results, events := RunWave(ps, decoder, replies, orders, w, results, events, reporting);
      i, w := i + 3, w + 1;
    }
  }

  /** The results map and the reports once the first `w` waves are done. */
  ghost function AfterWaves(ps: seq<FileStorage.StoredFile>, decoder: Decoder, replies: seq<Result<string, Thrown>>,
                            orders: seq<seq<nat>>, w: nat, reporting: bool): (OcrResults, seq<OcrProgress>)
    requires |replies| == |ps| && w <= |orders| == WaveCount(|ps|)
  {
    var outs := Outcomes(ps, decoder, replies);
    var steps := Schedule(ps, decoder, orders, w);
    (ResultsOf(ps, outs, steps), EventsOf(ps, outs, steps, reporting))
  }

  /** One wave, `Promise.all(batch.map(...))` over the files of wave `w`:
      every file is launched, then the requests finish in `orders[w]`. */
  method RunWave(ps: seq<FileStorage.StoredFile>, decoder: Decoder, replies: seq<Result<string, Thrown>>,
                 orders: seq<seq<nat>>, w: nat, results0: OcrResults, events0: seq<OcrProgress>, reporting: bool)
    returns (results: OcrResults, events: seq<OcrProgress>)
    requires |replies| == |ps| && ValidOrders(|ps|, orders) && w < |orders|
    requires (results0, events0) == AfterWaves(ps, decoder, replies, orders, w, reporting)
    ensures (results, events) == AfterWaves(ps, decoder, replies, orders, w + 1, reporting)
  {
    var start, end := 3 * w, WaveEnd(|ps|, w);
    ghost var prior := Schedule(ps, decoder, orders, w);
    var pending;
    results, events, pending := LaunchWave(ps, decoder, replies, start, end, prior, results0, events0, reporting);
    OrderInRange(|ps|, orders, w);
    ghost var launched := prior + LaunchSteps(ps, decoder, start, end);
    results, events := FinishWave(ps, decoder, replies, start, end, orders[w], launched, pending, results, events, reporting);
  }

  /** The decoded file of each file of `start .. i - 1` whose decoding
      succeeded, that is, of each file whose request goes out. */
  function PendingOf(ps: seq<FileStorage.StoredFile>, decoder: Decoder, start: nat, i: nat): map<nat, BlobFile>
    requires start <= i <= |ps|
    decreases i - start
  {
    if i == start then map[]
    else
      var before := PendingOf(ps, decoder, start, i - 1);
      var f := ps[i - 1];
      match DecodeDataUrl(f.dataUrl, f.name, f.fileType, decoder)
      case Ok(blob) => before[i - 1 := blob]
      case Err(_) => before
  }

  /** A file is pending exactly when it belongs to the range and its
      decoding succeeded, and what is kept is its decoding. */
  lemma {:induction false} PendingOfAt(ps: seq<FileStorage.StoredFile>, decoder: Decoder, start: nat, i: nat, k: nat)
    requires start <= i <= |ps| && k < |ps|
    ensures k in PendingOf(ps, decoder, start, i) <==> start <= k < i && !DecodeFails(ps[k], decoder)
    ensures k in PendingOf(ps, decoder, start, i) ==>
      DecodeDataUrl(ps[k].dataUrl, ps[k].name, ps[k].fileType, decoder) == Ok(PendingOf(ps, decoder, start, i)[k])
    decreases i - start
  {
    if i > start {
      PendingOfAt(ps, decoder, start, i - 1, k);
    }
  }

  /** The synchronous part of a wave: `batch.map` launches the files of
      `start .. end - 1` one after the other. */
  method LaunchWave(ps: seq<FileStorage.StoredFile>, decoder: Decoder, replies: seq<Result<string, Thrown>>,
                    start: nat, end: nat, ghost prior: seq<Step>, results0: OcrResults,
                    events0: seq<OcrProgress>, reporting: bool)
    returns (results: OcrResults, events: seq<OcrProgress>, pending: map<nat, BlobFile>)
    requires start <= end <= |ps| == |replies|
    requires results0 == ResultsOf(ps, Outcomes(ps, decoder, replies), prior)
    requires events0 == EventsOf(ps, Outcomes(ps, decoder, replies), prior, reporting)
    ensures results == ResultsOf(ps, Outcomes(ps, decoder, replies), prior + LaunchSteps(ps, decoder, start, end))
    ensures events == EventsOf(ps, Outcomes(ps, decoder, replies), prior + LaunchSteps(ps, decoder, start, end), reporting)
    ensures pending == PendingOf(ps, decoder, start, end)
  {
    ghost var outs := Outcomes(ps, decoder, replies);
    results, events, pending := results0, events0, map[];
    var k := start;
    ghost var steps := prior;
    assert prior + LaunchSteps(ps, decoder, start, start) == prior;
    while k < end
      invariant start <= k <= end
      invariant steps == prior + LaunchSteps(ps, decoder, start, k)
      invariant results == ResultsOf(ps, outs, steps)
      invariant events == EventsOf(ps, outs, steps, reporting)
      invariant pending == PendingOf(ps, decoder, start, k)
    {
      LaunchStepsSnoc(ps, decoder, prior, start, k);
      results, events, pending := LaunchFile(ps, decoder, replies, start, k, steps, results, events, pending, reporting);
      steps := prior + LaunchSteps(ps, decoder, start, k + 1);
      k := k + 1;
    }
  }

  /** `processFile` up to its first `await`: report the start, decode; a
      decoding that throws settles the file at once with the error. */
  method LaunchFile(ps: seq<FileStorage.StoredFile>, decoder: Decoder, replies: seq<Result<string, Thrown>>,
                    start: nat, k: nat, ghost prior: seq<Step>, results0: OcrResults, events0: seq<OcrProgress>,
                    pending0: map<nat, BlobFile>, reporting: bool)
    returns (results: OcrResults, events: seq<OcrProgress>, pending: map<nat, BlobFile>)
    requires start <= k < |ps| == |replies|
    requires pending0 == PendingOf(ps, decoder, start, k)
    requires results0 == ResultsOf(ps, Outcomes(ps, decoder, replies), prior)
    requires events0 == EventsOf(ps, Outcomes(ps, decoder, replies), prior, reporting)
    ensures results == ResultsOf(ps, Outcomes(ps, decoder, replies), prior + LaunchStep(ps, decoder, k))
    ensures events == EventsOf(ps, Outcomes(ps, decoder, replies), prior + LaunchStep(ps, decoder, k), reporting)
    ensures pending == PendingOf(ps, decoder, start, k + 1)
  {
    ghost var outs := Outcomes(ps, decoder, replies);
    var file := ps[k];
    results, events, pending := results0, events0, pending0;
    StepSnoc(ps, outs, prior, Begin(k), reporting);
    if reporting {
      events := events + [StartEvent(file.name, k, |ps|)];
    }
    var fileObj := DataUrlToFile(file.dataUrl, file.name, file.fileType, decoder);
    if fileObj.Err? {
      var outcome := Failed(fileObj.error.MessageOr(UnknownError));
      OutcomesAt(ps, decoder, replies, k);
      StepSnoc(ps, outs, prior + [Begin(k)], Settle(k), reporting);
      assert prior + [Begin(k)] + [Settle(k)] == prior + LaunchStep(ps, decoder, k);
      results := results.Set(file.id, outcome);
      if reporting {
        events := events + [EndEvent(file.name, k, |ps|, false)];
      }
    } else {
      pending := pending[k := fileObj.value];
    }
  }

  /** The asynchronous part of a wave: the requests finish in `order`. */
  method FinishWave(ps: seq<FileStorage.StoredFile>, decoder: Decoder, replies: seq<Result<string, Thrown>>,
                    start: nat, end: nat, order: seq<nat>, ghost prior: seq<Step>, pending: map<nat, BlobFile>,
                    results0: OcrResults, events0: seq<OcrProgress>, reporting: bool)
    returns (results: OcrResults, events: seq<OcrProgress>)
    requires start <= end <= |ps| == |replies| && pending == PendingOf(ps, decoder, start, end)
    requires forall i :: 0 <= i < |order| ==> start <= order[i] < end
    requires results0 == ResultsOf(ps, Outcomes(ps, decoder, replies), prior)
    requires events0 == EventsOf(ps, Outcomes(ps, decoder, replies), prior, reporting)
    ensures results == ResultsOf(ps, Outcomes(ps, decoder, replies), prior + FinishSteps(ps, decoder, order))
    ensures events == EventsOf(ps, Outcomes(ps, decoder, replies), prior + FinishSteps(ps, decoder, order), reporting)
  {
    ghost var outs := Outcomes(ps, decoder, replies);
    results, events := results0, events0;
    var j := 0;
    ghost var steps := prior;
    assert prior + FinishSteps(ps, decoder, order[..0]) == prior;
    while j < |order|
      invariant j <= |order|
      invariant steps == prior + FinishSteps(ps, decoder, order[..j])
      invariant results == ResultsOf(ps, outs, steps)
      invariant events == EventsOf(ps, outs, steps, reporting)
    {
      FinishStepsSnoc(ps, decoder, prior, order, j);
      results, events := FinishFile(ps, decoder, replies, start, end, order[j], steps, pending, results, events, reporting);
      steps := prior + FinishSteps(ps, decoder, order[..j + 1]);
      j := j + 1;
    }
    assert order[..j] == order;
  }

  /** `processFile` after its `await`: the file's text or error is set and
      its end reported. A file that settled at launch has no request to
      finish. */
  method FinishFile(ps: seq<FileStorage.StoredFile>, decoder: Decoder, replies: seq<Result<string, Thrown>>,
                    start: nat, end: nat, k: nat, ghost prior: seq<Step>, pending: map<nat, BlobFile>,
                    results0: OcrResults, events0: seq<OcrProgress>, reporting: bool)
    returns (results: OcrResults, events: seq<OcrProgress>)
    requires start <= k < end <= |ps| == |replies| && pending == PendingOf(ps, decoder, start, end)
    requires results0 == ResultsOf(ps, Outcomes(ps, decoder, replies), prior)
    requires events0 == EventsOf(ps, Outcomes(ps, decoder, replies), prior, reporting)
    ensures results == ResultsOf(ps, Outcomes(ps, decoder, replies), prior + FinishStep(ps, decoder, k))
    ensures events == EventsOf(ps, Outcomes(ps, decoder, replies), prior + FinishStep(ps, decoder, k), reporting)
  {
    ghost var outs := Outcomes(ps, decoder, replies);
    results, events := results0, events0;
    PendingOfAt(ps, decoder, start, end, k);
    if k in pending {
      var text := OcrApiService.ExtractTextFromImage(|pending[k].bytes|, replies[k]);
      var outcome := match text
        case Ok(t) => Text(t)
        case Err(e) => Failed(e.MessageOr(UnknownError));
      OutcomesAt(ps, decoder, replies, k);
      StepSnoc(ps, outs, prior, Settle(k), reporting);
      results := results.Set(ps[k].id, outcome);
      if reporting {
        events := events + [EndEvent(ps[k].name, k, |ps|, outcome.Text?)];
      }
    } else {
      assert prior + [] == prior;
    }
  }

  // ----- What a batch run guarantees ------------------------------------------

  /** The files launched by `steps`, in launch order. */
  function Begins(steps: seq<Step>): seq<nat>
    decreases |steps|
  {
    if steps == [] then []
    else
      var m := |steps| - 1;
      Begins(steps[..m]) + (if steps[m].Begin? then [steps[m].k] else [])
  }

  /** How many times `steps` settles file `x`. */
  function SettleCount(steps: seq<Step>, x: nat): nat
    decreases |steps|
  {
    if steps == [] then 0
    else
      var m := |steps| - 1;
      SettleCount(steps[..m], x) + (if steps[m] == Settle(x) then 1 else 0)
  }

  lemma {:induction false} BeginsAppend(a: seq<Step>, b: seq<Step>)
    ensures Begins(a + b) == Begins(a) + Begins(b)
    decreases |b|
  {
    if b == [] {
      assert a + b == a;
    } else {
      var m := |b| - 1;
      BeginsAppend(a, b[..m]);
      assert (a + b)[..|a| + m] == a + b[..m];
    }
  }

  lemma {:induction false} SettleCountAppend(a: seq<Step>, b: seq<Step>, x: nat)
    ensures SettleCount(a + b, x) == SettleCount(a, x) + SettleCount(b, x)
    decreases |b|
  {
    if b == [] {
      assert a + b == a;
    } else {
      var m := |b| - 1;
      SettleCountAppend(a, b[..m], x);
      assert (a + b)[..|a| + m] == a + b[..m];
    }
  }

  lemma StepParts(ps: seq<FileStorage.StoredFile>, decoder: Decoder, k: nat, x: nat)
    requires k < |ps|
    ensures Begins(LaunchStep(ps, decoder, k)) == [k]
    ensures SettleCount(LaunchStep(ps, decoder, k), x) == if x == k && DecodeFails(ps[k], decoder) then 1 else 0
    ensures Begins(FinishStep(ps, decoder, k)) == []
    ensures SettleCount(FinishStep(ps, decoder, k), x) == if x == k && !DecodeFails(ps[k], decoder) then 1 else 0
  {
    assert [Begin(k), Settle(k)][..1] == [Begin(k)];
    assert [Begin(k)][..0] == [] && [Settle(k)][..0] == [];
    assert Begins([Begin(k)]) == [k];
    assert SettleCount([Begin(k)], x) == 0;
  }

  /** A wave's launches are its files in order. */
  lemma {:induction false} LaunchBegins(ps: seq<FileStorage.StoredFile>, decoder: Decoder, start: nat, end: nat)
    requires start <= end <= |ps|
    ensures Begins(LaunchSteps(ps, decoder, start, end)) == Range(start, end)
    decreases end - start
  {
    if start < end {
      var k := end - 1;
      var before := LaunchSteps(ps, decoder, start, k);
      var step := LaunchStep(ps, decoder, k);
      assert LaunchSteps(ps, decoder, start, end) == before + step;
      LaunchBegins(ps, decoder, start, k);
      LaunchStepBegins(ps, decoder, k);
      BeginsSnocRange(before, step, start, k);
    } else {
      assert LaunchSteps(ps, decoder, start, end) == [] && Range(start, end) == [];
    }
  }

  lemma LaunchStepBegins(ps: seq<FileStorage.StoredFile>, decoder: Decoder, k: nat)
    requires k < |ps|
    ensures Begins(LaunchStep(ps, decoder, k)) == [k]
  {
    assert [Begin(k), Settle(k)][..1] == [Begin(k)];
    assert [Begin(k)][..0] == [];
    assert Begins([Begin(k)]) == [k];
  }

  lemma BeginsSnocRange(before: seq<Step>, step: seq<Step>, start: nat, k: nat)
    requires start <= k && Begins(before) == Range(start, k) && Begins(step) == [k]
    ensures Begins(before + step) == Range(start, k + 1)
  {
    BeginsAppend(before, step);
    RangeSnoc(start, k);
  }

  /** A file settles at launch exactly when its decoding fails. */
  lemma {:induction false} LaunchSettles(ps: seq<FileStorage.StoredFile>, decoder: Decoder, start: nat, end: nat, x: nat)
    requires start <= end <= |ps|
    ensures SettleCount(LaunchSteps(ps, decoder, start, end), x)
         == if start <= x < end && DecodeFails(ps[x], decoder) then 1 else 0
    decreases end - start
  {
    if start < end {
      var k := end - 1;
      var before := LaunchSteps(ps, decoder, start, k);
      LaunchSettles(ps, decoder, start, k, x);
      SettleCountAppend(before, LaunchStep(ps, decoder, k), x);
      StepParts(ps, decoder, k, x);
      assert SettleCount(LaunchSteps(ps, decoder, start, end), x)
          == SettleCount(before, x) + SettleCount(LaunchStep(ps, decoder, k), x);
    }
  }

  /** Nothing is launched after the launch phase. */
  lemma {:induction false} FinishBegins(ps: seq<FileStorage.StoredFile>, decoder: Decoder, order: seq<nat>)
    ensures Begins(FinishSteps(ps, decoder, order)) == []
    decreases |order|
  {
    if order != [] {
      var m := |order| - 1;
      FinishBegins(ps, decoder, order[..m]);
      BeginsAppend(FinishSteps(ps, decoder, order[..m]), FinishStep(ps, decoder, order[m]));
      if order[m] < |ps| {
        StepParts(ps, decoder, order[m], 0);
      }
    }
  }

  /** After launch, a file settles once for each time the finish order
      names it, if its request went out. */
  lemma {:induction false} FinishSettles(ps: seq<FileStorage.StoredFile>, decoder: Decoder, order: seq<nat>, x: nat)
    ensures SettleCount(FinishSteps(ps, decoder, order), x)
         == if x < |ps| && !DecodeFails(ps[x], decoder) then Count(order, x) else 0
    decreases |order|
  {
    if order != [] {
      var m := |order| - 1;
      FinishSettles(ps, decoder, order[..m], x);
      SettleCountAppend(FinishSteps(ps, decoder, order[..m]), FinishStep(ps, decoder, order[m]), x);
      if order[m] < |ps| {
        StepParts(ps, decoder, order[m], x);
      }
    }
  }

  /** The first `m` waves launch the files `0 .. 3m - 1` in order. */
  lemma {:induction false} ScheduleBegins(ps: seq<FileStorage.StoredFile>, decoder: Decoder,
                                          orders: seq<seq<nat>>, m: nat)
    requires ValidOrders(|ps|, orders) && m <= |orders|
    ensures Begins(Schedule(ps, decoder, orders, m)) == Range(0, Min(3 * m, |ps|))
    decreases m
  {
    if m > 0 {
      var w := m - 1;
      WaveCountBounds(|ps|, w);
      var end := WaveEnd(|ps|, w);
      var prior := Schedule(ps, decoder, orders, w);
      var launch := LaunchSteps(ps, decoder, 3 * w, end);
      var finish := FinishSteps(ps, decoder, orders[w]);
      assert Schedule(ps, decoder, orders, m) == prior + launch + finish;
      ScheduleBegins(ps, decoder, orders, w);
      assert Min(3 * w, |ps|) == 3 * w && Min(3 * m, |ps|) == end;
      LaunchBegins(ps, decoder, 3 * w, end);
      FinishBegins(ps, decoder, orders[w]);
      BeginsAppend(prior, launch);
      BeginsAppend(prior + launch, finish);
      RangeAppend(0, 3 * w, end);
      assert Begins(prior + launch + finish) == Range(0, 3 * w) + Range(3 * w, end) + [];
    }
  }

  /** The first `m` waves settle each of the files `0 .. 3m - 1` exactly
      once, and no other. */
  lemma {:induction false} ScheduleSettles(ps: seq<FileStorage.StoredFile>, decoder: Decoder,
                                           orders: seq<seq<nat>>, m: nat, x: nat)
    requires ValidOrders(|ps|, orders) && m <= |orders|
    ensures SettleCount(Schedule(ps, decoder, orders, m), x) == if x < Min(3 * m, |ps|) then 1 else 0
    decreases m
  {
    if m > 0 {
      var w := m - 1;
      WaveCountBounds(|ps|, w);
      var end := WaveEnd(|ps|, w);
      var prior := Schedule(ps, decoder, orders, w);
      var launch := LaunchSteps(ps, decoder, 3 * w, end);
      var finish := FinishSteps(ps, decoder, orders[w]);
      ScheduleSettles(ps, decoder, orders, w, x);
      LaunchSettles(ps, decoder, 3 * w, end, x);
      FinishSettles(ps, decoder, orders[w], x);
      OrderCount(|ps|, orders, w, x);
      SettleCountAppend(prior, launch, x);
      SettleCountAppend(prior + launch, finish, x);
      assert SettleCount(Schedule(ps, decoder, orders, m), x)
          == SettleCount(prior, x) + SettleCount(launch, x) + SettleCount(finish, x);
    }
  }

  /** Every processable file is launched once, in list order, and settles
      exactly once. */
  lemma BatchEachOnce(ps: seq<FileStorage.StoredFile>, decoder: Decoder, orders: seq<seq<nat>>)
    requires ValidOrders(|ps|, orders)
    ensures Begins(BatchSteps(ps, decoder, orders)) == Range(0, |ps|)
    ensures forall x: nat :: SettleCount(BatchSteps(ps, decoder, orders), x) == if x < |ps| then 1 else 0
  {
    ScheduleBegins(ps, decoder, orders, |orders|);
    forall x: nat
      ensures SettleCount(BatchSteps(ps, decoder, orders), x) == if x < |ps| then 1 else 0
    {
      ScheduleSettles(ps, decoder, orders, |orders|, x);
    }
  }

  /** Steps that name only files in `[start, end)`, where every settlement
      comes right after the launch of the same file. */
  predicate LaunchShape(l: seq<Step>, start: nat, end: nat) {
    forall i :: 0 <= i < |l| ==> LaunchedAt(l, start, end, i)
  }

  /** Step `i` of `l` names a file in `[start, end)` and, if it settles,
      follows the launch of that file. */
  predicate LaunchedAt(l: seq<Step>, start: nat, end: nat, i: int)
    requires 0 <= i < |l|
  {
    && start <= l[i].k < end
    && (l[i].Settle? ==> 0 < i && l[i - 1] == Begin(l[i].k))
  }

  /** Appending the launch of file `k` to a launch shape over `[start, k)`
      gives a launch shape over `[start, k + 1)`. */
  lemma ShapeAppend(before: seq<Step>, start: nat, k: nat, end: nat, step: seq<Step>)
    requires LaunchShape(before, start, k) && start <= k && end == k + 1
    requires step == [Begin(k)] || step == [Begin(k), Settle(k)]
    ensures LaunchShape(before + step, start, end)
  {
    var l := before + step;
    forall i | 0 <= i < |l|
      ensures LaunchedAt(l, start, end, i)
    {
      if i < |before| {
        assert LaunchedAt(before, start, k, i);
        assert l[i] == before[i];
        if before[i].Settle? {
          assert l[i - 1] == before[i - 1];
        }
      } else if i == |before| {
        assert l[i] == Begin(k);
      } else {
        assert l[i] == Settle(k);
      }
    }
  }

  /** The launch of a wave names only files of the wave, and each file that
      settles at launch settles right after its own launch. */
  lemma {:induction false} LaunchBounds(ps: seq<FileStorage.StoredFile>, decoder: Decoder, start: nat, end: nat)
    requires start <= end <= |ps|
    ensures LaunchShape(LaunchSteps(ps, decoder, start, end), start, end)
    decreases end - start
  {
    if start < end {
      LaunchBounds(ps, decoder, start, end - 1);
      ShapeAppend(LaunchSteps(ps, decoder, start, end - 1), start, end - 1, end, LaunchStep(ps, decoder, end - 1));
    }
  }

  /** The finish phase only settles, and only files its order names. */
  lemma {:induction false} FinishBounds(ps: seq<FileStorage.StoredFile>, decoder: Decoder, order: seq<nat>, lo: nat, hi: nat)
    requires forall i :: 0 <= i < |order| ==> lo <= order[i] < hi
    ensures forall i :: 0 <= i < |FinishSteps(ps, decoder, order)| ==>
      FinishSteps(ps, decoder, order)[i].Settle? && lo <= FinishSteps(ps, decoder, order)[i].k < hi
    decreases |order|
  {
    if order != [] {
      FinishBounds(ps, decoder, order[..|order| - 1], lo, hi);
    }
  }

  /** The first `m` waves name only the files `0 .. 3m - 1`. */
  lemma {:induction false} ScheduleBelow(ps: seq<FileStorage.StoredFile>, decoder: Decoder,
                                         orders: seq<seq<nat>>, m: nat)
    requires ValidOrders(|ps|, orders) && m <= |orders|
    ensures forall i :: 0 <= i < |Schedule(ps, decoder, orders, m)| ==>
      Schedule(ps, decoder, orders, m)[i].k < Min(3 * m, |ps|)
    decreases m
  {
    if m > 0 {
      var w := m - 1;
      ScheduleBelow(ps, decoder, orders, w);
      WaveFacts(ps, decoder, orders, w);
      WaveBelow(Schedule(ps, decoder, orders, w), LaunchSteps(ps, decoder, 3 * w, WaveEnd(|ps|, w)),
                FinishSteps(ps, decoder, orders[w]), 3 * w, WaveEnd(|ps|, w));
    }
  }

  /** The facts about wave `w` the schedule lemmas build on: its bounds,
      its launch shape and order, where its finishes fall, and how it
      extends the schedule. */
  lemma WaveFacts(ps: seq<FileStorage.StoredFile>, decoder: Decoder, orders: seq<seq<nat>>, w: nat)
    requires ValidOrders(|ps|, orders) && w < |orders|
    ensures 3 * w <= WaveEnd(|ps|, w) <= |ps| && WaveEnd(|ps|, w) <= 3 * w + 3
    ensures LaunchShape(LaunchSteps(ps, decoder, 3 * w, WaveEnd(|ps|, w)), 3 * w, WaveEnd(|ps|, w))
    ensures Begins(LaunchSteps(ps, decoder, 3 * w, WaveEnd(|ps|, w))) == Range(3 * w, WaveEnd(|ps|, w))
    ensures forall i :: 0 <= i < |FinishSteps(ps, decoder, orders[w])| ==>
      3 * w <= FinishSteps(ps, decoder, orders[w])[i].k < WaveEnd(|ps|, w)
    ensures Schedule(ps, decoder, orders, w + 1)
         == Schedule(ps, decoder, orders, w) + LaunchSteps(ps, decoder, 3 * w, WaveEnd(|ps|, w))
          + FinishSteps(ps, decoder, orders[w])
  {
    WaveCountBounds(|ps|, w);
    LaunchBounds(ps, decoder, 3 * w, WaveEnd(|ps|, w));
    LaunchBegins(ps, decoder, 3 * w, WaveEnd(|ps|, w));
    OrderInRange(|ps|, orders, w);
    FinishBounds(ps, decoder, orders[w], 3 * w, WaveEnd(|ps|, w));
  }

  /** A wave whose steps name files below `hi`, after steps naming files
      below `lo`, leaves every step below `hi`. */
  lemma WaveBelow(prior: seq<Step>, launch: seq<Step>, finish: seq<Step>, lo: nat, hi: nat)
    requires lo <= hi
    requires forall i :: 0 <= i < |prior| ==> prior[i].k < lo
    requires LaunchShape(launch, lo, hi)
    requires forall i :: 0 <= i < |finish| ==> finish[i].k < hi
    ensures forall i :: 0 <= i < |prior + launch + finish| ==> (prior + launch + finish)[i].k < hi
  {
    var r := prior + launch + finish;
    forall i | 0 <= i < |r|
      ensures r[i].k < hi
    {
      if i < |prior| {
        assert r[i] == prior[i];
      } else if i < |prior| + |launch| {
        assert r[i] == launch[i - |prior|];
        assert LaunchedAt(launch, lo, hi, i - |prior|);
      } else {
        assert r[i] == finish[i - |prior| - |launch|];
      }
    }
  }


  lemma BatchStepsIn(ps: seq<FileStorage.StoredFile>, decoder: Decoder, orders: seq<seq<nat>>)
    requires ValidOrders(|ps|, orders)
    ensures StepsIn(BatchSteps(ps, decoder, orders), |ps|)
  {
    ScheduleBelow(ps, decoder, orders, |orders|);
    assert Min(3 * |orders|, |ps|) <= |ps|;
  }

  /** Later waves only add steps, all naming files of wave `w` or later. */
  lemma {:induction false} ScheduleExtends(ps: seq<FileStorage.StoredFile>, decoder: Decoder,
                                           orders: seq<seq<nat>>, w: nat, m: nat)
    requires ValidOrders(|ps|, orders) && w <= m <= |orders|
    ensures |Schedule(ps, decoder, orders, w)| <= |Schedule(ps, decoder, orders, m)|
    ensures Schedule(ps, decoder, orders, m)[..|Schedule(ps, decoder, orders, w)|] == Schedule(ps, decoder, orders, w)
    ensures forall i :: |Schedule(ps, decoder, orders, w)| <= i < |Schedule(ps, decoder, orders, m)| ==>
      3 * w <= Schedule(ps, decoder, orders, m)[i].k
    decreases m
  {
    if w < m {
      var v := m - 1;
      WaveCountBounds(|ps|, v);
      ScheduleExtends(ps, decoder, orders, w, v);
      var launch := LaunchSteps(ps, decoder, 3 * v, WaveEnd(|ps|, v));
      var finish := FinishSteps(ps, decoder, orders[v]);
      WaveStepsFrom(ps, decoder, orders, v);
      ScheduleSnoc(ps, decoder, orders, v);
      ExtendKeeps(Schedule(ps, decoder, orders, w), Schedule(ps, decoder, orders, v), launch + finish, 3 * w);
    }
  }

  /** Wave `v` adds its launch and then its finish to the schedule. */
  lemma ScheduleSnoc(ps: seq<FileStorage.StoredFile>, decoder: Decoder, orders: seq<seq<nat>>, v: nat)
    requires ValidOrders(|ps|, orders) && v < |orders|
    ensures WaveEnd(|ps|, v) <= |ps| && 3 * v <= WaveEnd(|ps|, v)
    ensures Schedule(ps, decoder, orders, v + 1)
         == Schedule(ps, decoder, orders, v)
          + (LaunchSteps(ps, decoder, 3 * v, WaveEnd(|ps|, v)) + FinishSteps(ps, decoder, orders[v]))
  {
    WaveCountBounds(|ps|, v);
    var before := Schedule(ps, decoder, orders, v);
    var launch := LaunchSteps(ps, decoder, 3 * v, WaveEnd(|ps|, v));
    var finish := FinishSteps(ps, decoder, orders[v]);
    assert Schedule(ps, decoder, orders, v + 1) == before + launch + finish;
    AppendAssoc(before, launch, finish);
  }

  lemma AppendAssoc(a: seq<Step>, b: seq<Step>, c: seq<Step>)
    ensures a + b + c == a + (b + c)
  {
  }

  /** Every step of wave `v` names a file of that wave or later. */
  lemma WaveStepsFrom(ps: seq<FileStorage.StoredFile>, decoder: Decoder, orders: seq<seq<nat>>, v: nat)
    requires ValidOrders(|ps|, orders) && v < |orders|
    ensures forall i :: 0 <= i < |LaunchSteps(ps, decoder, 3 * v, WaveEnd(|ps|, v)) + FinishSteps(ps, decoder, orders[v])| ==>
      3 * v <= (LaunchSteps(ps, decoder, 3 * v, WaveEnd(|ps|, v)) + FinishSteps(ps, decoder, orders[v]))[i].k
  {
    WaveCountBounds(|ps|, v);
    var launch: seq<Step> := LaunchSteps(ps, decoder, 3 * v, WaveEnd(|ps|, v));
    var finish: seq<Step> := FinishSteps(ps, decoder, orders[v]);
    LaunchBounds(ps, decoder, 3 * v, WaveEnd(|ps|, v));
    OrderInRange(|ps|, orders, v);
    FinishBounds(ps, decoder, orders[v], 3 * v, WaveEnd(|ps|, v));
    forall i | 0 <= i < |launch + finish|
      ensures 3 * v <= (launch + finish)[i].k
    {
      if i < |launch| {
        assert LaunchedAt(launch, 3 * v, WaveEnd(|ps|, v), i);
      } else {
        assert (launch + finish)[i] == finish[i - |launch|];
      }
    }
  }

  /** Appending steps that name files from `lo` on keeps a prefix, and keeps
      every step past it at `lo` or later. */
  lemma ExtendKeeps(early: seq<Step>, before: seq<Step>, added: seq<Step>, lo: nat)
    requires |early| <= |before| && before[..|early|] == early
    requires forall i :: |early| <= i < |before| ==> lo <= before[i].k
    requires forall i :: 0 <= i < |added| ==> lo <= added[i].k
    ensures |early| <= |before + added| && (before + added)[..|early|] == early
    ensures forall i :: |early| <= i < |before + added| ==> lo <= (before + added)[i].k
  {
    assert (before + added)[..|before|] == before;
    forall i | |early| <= i < |before + added|
      ensures lo <= (before + added)[i].k
    {
      if i >= |before| {
        assert (before + added)[i] == added[i - |before|];
      }
    }
  }


  lemma {:induction false} BeginsMember(steps: seq<Step>, x: nat)
    requires x in Begins(steps)
    ensures exists j :: 0 <= j < |steps| && steps[j] == Begin(x)
    decreases |steps|
  {
    var m := |steps| - 1;
    if steps[m] != Begin(x) {
      BeginsMember(steps[..m], x);
      var j :| 0 <= j < m && steps[..m][j] == Begin(x);
      assert steps[j] == Begin(x);
    }
  }

  /** Each settlement follows the launch of the same file. */
  ghost predicate LaunchedFirst(steps: seq<Step>) {
    forall i :: 0 <= i < |steps| ==> LaunchedBefore(steps, i)
  }

  /** If step `i` settles a file, that file was launched at an earlier step. */
  ghost predicate LaunchedBefore(steps: seq<Step>, i: int)
    requires 0 <= i < |steps|
  {
    steps[i].Settle? ==> exists j :: 0 <= j < i && steps[j] == Begin(steps[i].k)
  }

  /** A wave whose launch begins every file of `[lo, hi)`, and whose settlements
      name only those files, keeps every settlement after its launch. */
  lemma WaveLaunchedFirst(prior: seq<Step>, launch: seq<Step>, finish: seq<Step>, lo: nat, hi: nat)
    requires LaunchedFirst(prior) && LaunchShape(launch, lo, hi) && lo <= hi
    requires Begins(launch) == Range(lo, hi)
    requires forall i :: 0 <= i < |finish| ==> lo <= finish[i].k < hi
    ensures LaunchedFirst(prior + launch + finish)
  {
    var r := prior + launch + finish;
    forall i | 0 <= i < |r|
      ensures LaunchedBefore(r, i)
    {
      if i < |prior| {
        assert r[i] == prior[i];
        if prior[i].Settle? {
          assert LaunchedBefore(prior, i);
          var j :| 0 <= j < i && prior[j] == Begin(prior[i].k);
          assert r[j] == prior[j];
        }
      } else if i < |prior| + |launch| {
        var li := i - |prior|;
        assert r[i] == launch[li];
        assert LaunchedAt(launch, lo, hi, li);
        if launch[li].Settle? {
          assert r[i - 1] == launch[li - 1];
        }
      } else {
        var fi := i - |prior| - |launch|;
        assert r[i] == finish[fi];
        var x := finish[fi].k;
        assert Range(lo, hi)[x - lo] == x;
        BeginsMember(launch, x);
        var j :| 0 <= j < |launch| && launch[j] == Begin(x);
        assert r[|prior| + j] == launch[j];
      }
    }
  }

  /** A file settles only after it was launched: its end is reported after
      its start. */
  lemma {:induction false} ScheduleLaunchedFirst(ps: seq<FileStorage.StoredFile>, decoder: Decoder,
                                                 orders: seq<seq<nat>>, m: nat)
    requires ValidOrders(|ps|, orders) && m <= |orders|
    ensures LaunchedFirst(Schedule(ps, decoder, orders, m))
    decreases m
  {
    if m > 0 {
      var w := m - 1;
      ScheduleLaunchedFirst(ps, decoder, orders, w);
      WaveFacts(ps, decoder, orders, w);
      WaveLaunchedFirst(Schedule(ps, decoder, orders, w), LaunchSteps(ps, decoder, 3 * w, WaveEnd(|ps|, w)),
                        FinishSteps(ps, decoder, orders[w]), 3 * w, WaveEnd(|ps|, w));
    }
  }


  lemma {:induction false} SettleCountMember(steps: seq<Step>, x: nat)
    requires SettleCount(steps, x) > 0
    ensures exists i :: 0 <= i < |steps| && steps[i] == Settle(x)
    decreases |steps|
  {
    var m := |steps| - 1;
    if steps[m] != Settle(x) {
      SettleCountMember(steps[..m], x);
      var i :| 0 <= i < m && steps[..m][i] == Settle(x);
      assert steps[i] == Settle(x);
    }
  }

  /** The results map stays well formed: each id listed once. */
  lemma {:induction false} ResultsValid(ps: seq<FileStorage.StoredFile>, outs: seq<OcrResult>, steps: seq<Step>)
    requires |outs| == |ps|
    ensures ResultsOf(ps, outs, steps).Valid()
    decreases |steps|
  {
    if steps != [] {
      var m := |steps| - 1;
      var k := steps[m].k;
      ResultsValid(ps, outs, steps[..m]);
      if steps[m].Settle? && k < |ps| {
        ResultsOf(ps, outs, steps[..m]).SetKeepsValid(ps[k].id, outs[k]);
      }
    }
  }

  /** An id is in the map exactly when a file carrying it has settled. */
  lemma {:induction false} ResultsKeys(ps: seq<FileStorage.StoredFile>, outs: seq<OcrResult>, steps: seq<Step>, id: string)
    requires |outs| == |ps| && StepsIn(steps, |ps|)
    ensures id in ResultsOf(ps, outs, steps).entries
        <==> exists i :: 0 <= i < |steps| && steps[i].Settle? && ps[steps[i].k].id == id
    decreases |steps|
  {
    if steps != [] {
      var m := |steps| - 1;
      var prefix := steps[..m];
      assert forall i :: 0 <= i < m ==> prefix[i] == steps[i];
      ResultsKeys(ps, outs, prefix, id);
      if exists i :: 0 <= i < |steps| && steps[i].Settle? && ps[steps[i].k].id == id {
        var i :| 0 <= i < |steps| && steps[i].Settle? && ps[steps[i].k].id == id;
        if i < m {
          assert prefix[i] == steps[i];
        }
      }
    }
  }

  /** Each id holds the outcome of the last file carrying it to settle:
      with shared ids, the finish order decides. */
  lemma {:induction false} ResultsLastWriter(ps: seq<FileStorage.StoredFile>, outs: seq<OcrResult>, steps: seq<Step>, i: nat)
    requires |outs| == |ps| && StepsIn(steps, |ps|)
    requires i < |steps| && steps[i].Settle?
    requires forall j :: i < j < |steps| && steps[j].Settle? ==> ps[steps[j].k].id != ps[steps[i].k].id
    ensures var r := ResultsOf(ps, outs, steps);
      ps[steps[i].k].id in r.entries && r.entries[ps[steps[i].k].id] == outs[steps[i].k]
    decreases |steps|
  {
    var m := |steps| - 1;
    if i < m {
      var prefix := steps[..m];
      assert prefix[i] == steps[i];
      assert forall j :: i < j < m ==> prefix[j] == steps[j];
      ResultsLastWriter(ps, outs, prefix, i);
    }
  }

  /** When every file carrying `id` has the outcome `o`, and one of them
      settled, the map holds `o` under `id`. */
  lemma {:induction false} ResultsAgree(ps: seq<FileStorage.StoredFile>, outs: seq<OcrResult>, steps: seq<Step>,
                                        id: string, o: OcrResult)
    requires |outs| == |ps| && StepsIn(steps, |ps|)
    requires exists i :: 0 <= i < |steps| && steps[i].Settle? && ps[steps[i].k].id == id
    requires forall i :: 0 <= i < |steps| && steps[i].Settle? && ps[steps[i].k].id == id ==> outs[steps[i].k] == o
    ensures id in ResultsOf(ps, outs, steps).entries && ResultsOf(ps, outs, steps).entries[id] == o
    decreases |steps|
  {
    var m := |steps| - 1;
    if !(steps[m].Settle? && ps[steps[m].k].id == id) {
      var prefix := steps[..m];
      assert forall i :: 0 <= i < m ==> prefix[i] == steps[i];
      var i :| 0 <= i < |steps| && steps[i].Settle? && ps[steps[i].k].id == id;
      assert prefix[i] == steps[i];
      ResultsAgree(ps, outs, prefix, id, o);
    }
  }

  /** The map of a batch is well formed and holds exactly the ids of the
      processable files. */
  lemma BatchResultsKeys(ps: seq<FileStorage.StoredFile>, decoder: Decoder, replies: seq<Result<string, Thrown>>,
                         orders: seq<seq<nat>>, id: string)
    requires |replies| == |ps| && ValidOrders(|ps|, orders)
    ensures BatchResults(ps, decoder, replies, orders).Valid()
    ensures id in BatchResults(ps, decoder, replies, orders).entries <==> exists k :: 0 <= k < |ps| && ps[k].id == id
  {
    var steps := BatchSteps(ps, decoder, orders);
    var outs := Outcomes(ps, decoder, replies);
    BatchStepsIn(ps, decoder, orders);
    BatchEachOnce(ps, decoder, orders);
    ResultsValid(ps, outs, steps);
    ResultsKeys(ps, outs, steps, id);
    if k :| 0 <= k < |ps| && ps[k].id == id {
      SettleCountMember(steps, k);
    }
  }

  /** When the ids are distinct, each file gets its own outcome, whatever
      the finish orders. */
  lemma DistinctIdsEachRecorded(ps: seq<FileStorage.StoredFile>, decoder: Decoder, replies: seq<Result<string, Thrown>>,
                                orders: seq<seq<nat>>, k: nat)
    requires |replies| == |ps| && ValidOrders(|ps|, orders) && k < |ps|
    requires forall i, j :: 0 <= i < j < |ps| ==> ps[i].id != ps[j].id
    ensures var r := BatchResults(ps, decoder, replies, orders);
      ps[k].id in r.entries && r.entries[ps[k].id] == Outcome(ps[k], decoder, replies[k])
  {
    var steps := BatchSteps(ps, decoder, orders);
    var outs := Outcomes(ps, decoder, replies);
    BatchStepsIn(ps, decoder, orders);
    BatchEachOnce(ps, decoder, orders);
    SettleCountMember(steps, k);
    OutcomesAt(ps, decoder, replies, k);
    ResultsAgree(ps, outs, steps, ps[k].id, outs[k]);
  }

  /** The reports, step by step: one per step when there is a callback. */
  lemma {:induction false} EventsAt(ps: seq<FileStorage.StoredFile>, outs: seq<OcrResult>, steps: seq<Step>, reporting: bool)
    requires |outs| == |ps| && StepsIn(steps, |ps|)
    ensures !reporting ==> EventsOf(ps, outs, steps, reporting) == []
    ensures reporting ==> |EventsOf(ps, outs, steps, reporting)| == |steps|
    ensures reporting ==> forall i :: 0 <= i < |steps| ==> EventsOf(ps, outs, steps, reporting)[i] == Report(ps, outs, steps[i])
    decreases |steps|
  {
    if steps != [] && reporting {
      var m := |steps| - 1;
      assert forall i :: 0 <= i < m ==> steps[..m][i] == steps[i];
      EventsAt(ps, outs, steps[..m], reporting);
    }
  }

  /** A wave starts only once the previous one has finished, so every report
      of waves before `w` is at most `3w` and every later one at least `3w`. */
  lemma WaveBarrier(ps: seq<FileStorage.StoredFile>, decoder: Decoder, replies: seq<Result<string, Thrown>>,
                    orders: seq<seq<nat>>, w: nat)
    requires |replies| == |ps| && ValidOrders(|ps|, orders) && w <= |orders|
    ensures var ev := BatchEvents(ps, decoder, replies, orders, true);
      var cut := |Schedule(ps, decoder, orders, w)|;
      && cut <= |ev|
      && (forall i :: 0 <= i < cut ==> ev[i].currentIndex <= 3 * w)
      && (forall j :: cut <= j < |ev| ==> 3 * w <= ev[j].currentIndex)
  {
    var steps := BatchSteps(ps, decoder, orders);
    var early := Schedule(ps, decoder, orders, w);
    BatchStepsIn(ps, decoder, orders);
    ScheduleBelow(ps, decoder, orders, w);
    ScheduleExtends(ps, decoder, orders, w, |orders|);
    assert forall i :: 0 <= i < |early| ==> steps[i] == early[i];
    ReportsSplit(ps, Outcomes(ps, decoder, replies), steps, |early|, 3 * w);
  }

  /** Reports of steps split at `cut` by the file they name split the same
      way by index (an end report names one past its file). */
  lemma ReportsSplit(ps: seq<FileStorage.StoredFile>, outs: seq<OcrResult>, steps: seq<Step>, cut: nat, bound: nat)
    requires |outs| == |ps| && StepsIn(steps, |ps|) && cut <= |steps|
    requires forall i :: 0 <= i < cut ==> steps[i].k < bound
    requires forall j :: cut <= j < |steps| ==> bound <= steps[j].k
    ensures var ev := EventsOf(ps, outs, steps, true);
      && cut <= |ev|
      && (forall i :: 0 <= i < cut ==> ev[i].currentIndex <= bound)
      && (forall j :: cut <= j < |ev| ==> bound <= ev[j].currentIndex)
  {
    EventsAt(ps, outs, steps, true);
  }

  /** Every end report of a batch comes after the start report of the same
      file, whose index is one less. */
  lemma EndFollowsStart(ps: seq<FileStorage.StoredFile>, decoder: Decoder, replies: seq<Result<string, Thrown>>,
                        orders: seq<seq<nat>>, i: nat)
    requires |replies| == |ps| && ValidOrders(|ps|, orders)
    requires i < |BatchEvents(ps, decoder, replies, orders, true)|
    requires !BatchEvents(ps, decoder, replies, orders, true)[i].status.Processing?
    ensures 0 < BatchEvents(ps, decoder, replies, orders, true)[i].currentIndex
    ensures exists j :: 0 <= j < i && BatchEvents(ps, decoder, replies, orders, true)[j] == StartEvent(
      BatchEvents(ps, decoder, replies, orders, true)[i].currentFile,
      BatchEvents(ps, decoder, replies, orders, true)[i].currentIndex - 1, |ps|)
  {
    var steps := BatchSteps(ps, decoder, orders);
    var outs := Outcomes(ps, decoder, replies);
    BatchStepsIn(ps, decoder, orders);
    EventsAt(ps, outs, steps, true);
    ScheduleLaunchedFirst(ps, decoder, orders, |orders|);
    assert LaunchedBefore(steps, i);
    var j :| 0 <= j < i && steps[j] == Begin(steps[i].k);
    assert BatchEvents(ps, decoder, replies, orders, true)[j] == Report(ps, outs, steps[j]);
  }

  /** The first finish order's opening entry settles first. */
  lemma {:induction false} FinishFirst(ps: seq<FileStorage.StoredFile>, decoder: Decoder, order: seq<nat>)
    requires order != [] && order[0] < |ps| && !DecodeFails(ps[order[0]], decoder)
    ensures |FinishSteps(ps, decoder, order)| > 0 && FinishSteps(ps, decoder, order)[0] == Settle(order[0])
    decreases |order|
  {
    var m := |order| - 1;
    if m == 0 {
      assert order[..m] == [];
    } else {
      assert order[..m][0] == order[0];
      FinishFirst(ps, decoder, order[..m]);
    }
  }

  /** The first wave's launch of three decodable files begins each in turn. */
  lemma FirstWaveLaunch(ps: seq<FileStorage.StoredFile>, decoder: Decoder)
    requires 3 <= |ps|
    requires forall k :: 0 <= k < 3 ==> !DecodeFails(ps[k], decoder)
    ensures LaunchSteps(ps, decoder, 0, 3) == [Begin(0), Begin(1), Begin(2)]
  {
    assert LaunchSteps(ps, decoder, 0, 0) == [];
    assert LaunchSteps(ps, decoder, 0, 1) == [Begin(0)];
    assert LaunchSteps(ps, decoder, 0, 2) == [Begin(0), Begin(1)];
  }

  /** The batch begins the third file and then settles the first one. */
  lemma FirstWaveSteps(ps: seq<FileStorage.StoredFile>, decoder: Decoder, orders: seq<seq<nat>>)
    requires 3 <= |ps| && ValidOrders(|ps|, orders)
    requires forall k :: 0 <= k < 3 ==> !DecodeFails(ps[k], decoder)
    requires |orders[0]| > 0 && orders[0][0] == 0
    ensures |BatchSteps(ps, decoder, orders)| > 3
    ensures BatchSteps(ps, decoder, orders)[2] == Begin(2)
    ensures BatchSteps(ps, decoder, orders)[3] == Settle(0)
  {
    var launch := LaunchSteps(ps, decoder, 0, 3);
    var finish := FinishSteps(ps, decoder, orders[0]);
    assert WaveEnd(|ps|, 0) == 3;
    FirstWaveLaunch(ps, decoder);
    FinishFirst(ps, decoder, orders[0]);
    var first := Schedule(ps, decoder, orders, 1);
    assert first == launch + finish;
    assert first[2] == Begin(2) && first[3] == Settle(0);
    ScheduleExtends(ps, decoder, orders, 1, |orders|);
  }

  /** As written, progress falls within a wave: the three files of the first
      wave report 0/n, 1/n and 2/n before any request settles, and the first
      settlement reports (k + 1)/n for its own index k. When the first file
      settles first, the fourth report drops from 2/n back to 1/n. */
  lemma ProgressFallsWithinAWave(ps: seq<FileStorage.StoredFile>, decoder: Decoder,
                                 replies: seq<Result<string, Thrown>>, orders: seq<seq<nat>>)
    requires |replies| == |ps| && 3 <= |ps| && ValidOrders(|ps|, orders)
    requires forall k :: 0 <= k < 3 ==> !DecodeFails(ps[k], decoder)
    requires |orders[0]| > 0 && orders[0][0] == 0
    ensures |BatchEvents(ps, decoder, replies, orders, true)| > 3
    ensures BatchEvents(ps, decoder, replies, orders, true)[2].progress == Fraction(2, |ps|)
    ensures BatchEvents(ps, decoder, replies, orders, true)[3].progress == Fraction(1, |ps|)
  {
    var steps := BatchSteps(ps, decoder, orders);
    var outs := Outcomes(ps, decoder, replies);
    FirstWaveSteps(ps, decoder, orders);
    BatchStepsIn(ps, decoder, orders);
    EventsAt(ps, outs, steps, true);
    var ev := BatchEvents(ps, decoder, replies, orders, true);
    assert ev[2] == Report(ps, outs, steps[2]);
    assert ev[3] == Report(ps, outs, steps[3]);
  }

  // ----- Progress that counts finished files -----------------------------------

  /** How many of `steps` settle a file. */
  function Settled(steps: seq<Step>): nat
    decreases |steps|
  {
    if steps == [] then 0
    else Settled(steps[..|steps| - 1]) + (if steps[|steps| - 1].Settle? then 1 else 0)
  }

  /** The progress a report should carry if the bar is to show finished
      files: after each step, the files settled so far out of `n`. */
  function CompletedProgress(steps: seq<Step>, n: nat): (r: seq<Fraction>)
    ensures |r| == |steps|
    decreases |steps|
  {
    if steps == [] then []
    else CompletedProgress(steps[..|steps| - 1], n) + [Fraction(Settled(steps), n)]
  }

  lemma {:induction false} CompletedProgressAt(steps: seq<Step>, n: nat, i: nat)
    requires i < |steps|
    ensures CompletedProgress(steps, n)[i] == Fraction(Settled(steps[..i + 1]), n)
    decreases |steps|
  {
    var m := |steps| - 1;
    if i < m {
      CompletedProgressAt(steps[..m], n, i);
      assert steps[..m][..i + 1] == steps[..i + 1];
    } else {
      assert steps[..i + 1] == steps;
    }
  }

  /** A prefix settles no more files than the whole. */
  lemma {:induction false} SettledPrefix(steps: seq<Step>, i: nat)
    requires i <= |steps|
    ensures Settled(steps[..i]) <= Settled(steps)
    decreases |steps|
  {
    if i < |steps| {
      var m := |steps| - 1;
      SettledPrefix(steps[..m], i);
      assert steps[..m][..i] == steps[..i];
    } else {
      assert steps[..i] == steps;
    }
  }

  /** Counted this way, progress never goes down. */
  lemma CompletedProgressGrows(steps: seq<Step>, n: nat, i: nat, j: nat)
    requires i <= j < |steps|
    ensures CompletedProgress(steps, n)[i].num <= CompletedProgress(steps, n)[j].num
    ensures CompletedProgress(steps, n)[j].den == n
  {
    CompletedProgressAt(steps, n, i);
    CompletedProgressAt(steps, n, j);
    SettledPrefix(steps[..j + 1], i + 1);
    assert steps[..j + 1][..i + 1] == steps[..i + 1];
  }

  /** The number of settlements of files `0 .. n - 1`. */
  function SettleSum(steps: seq<Step>, n: nat): nat {
    if n == 0 then 0 else SettleSum(steps, n - 1) + SettleCount(steps, n - 1)
  }

  lemma {:induction false} SettleSumSnoc(steps: seq<Step>, s: Step, n: nat)
    ensures SettleSum(steps + [s], n) == SettleSum(steps, n) + (if s.Settle? && s.k < n then 1 else 0)
    decreases n
  {
    if n > 0 {
      SettleSumSnoc(steps, s, n - 1);
      assert (steps + [s])[..|steps|] == steps;
    }
  }

  /** Over steps naming only files below `n`, the settlements add up. */
  lemma {:induction false} SettledIsSum(steps: seq<Step>, n: nat)
    requires StepsIn(steps, n)
    ensures Settled(steps) == SettleSum(steps, n)
    decreases |steps|
  {
    if steps != [] {
      var m := |steps| - 1;
      assert StepsIn(steps[..m], n) by {
        assert forall i :: 0 <= i < m ==> steps[..m][i] == steps[i];
      }
      SettledIsSum(steps[..m], n);
      assert steps[..m] + [steps[m]] == steps;
      SettleSumSnoc(steps[..m], steps[m], n);
      assert steps[m].k < n;
      assert Settled(steps) == Settled(steps[..m]) + (if steps[m].Settle? then 1 else 0);
    } else {
      SettleSumNone(n);
    }
  }

  lemma {:induction false} SettleSumNone(n: nat)
    ensures SettleSum([], n) == 0
    decreases n
  {
    if n > 0 {
      SettleSumNone(n - 1);
    }
  }

  lemma {:induction false} SettleSumOnce(steps: seq<Step>, n: nat)
    requires forall x: nat :: x < n ==> SettleCount(steps, x) == 1
    ensures SettleSum(steps, n) == n
    decreases n
  {
    if n > 0 {
      SettleSumOnce(steps, n - 1);
    }
  }

  /** Counted this way, the last report of a batch shows every file done. */
  lemma BatchCompletes(ps: seq<FileStorage.StoredFile>, decoder: Decoder, orders: seq<seq<nat>>)
    requires ValidOrders(|ps|, orders) && 0 < |ps|
    ensures |BatchSteps(ps, decoder, orders)| > 0
    ensures CompletedProgress(BatchSteps(ps, decoder, orders), |ps|)[|BatchSteps(ps, decoder, orders)| - 1]
         == Fraction(|ps|, |ps|)
  {
    var steps := BatchSteps(ps, decoder, orders);
    BatchEachOnce(ps, decoder, orders);
    BatchStepsIn(ps, decoder, orders);
    SettledIsSum(steps, |ps|);
    SettleSumOnce(steps, |ps|);
    assert |Begins(steps)| == |ps|;
    BeginsShort(steps);
    CompletedProgressAt(steps, |ps|, |steps| - 1);
    assert steps[..|steps|] == steps;
  }

  lemma {:induction false} BeginsShort(steps: seq<Step>)
    ensures |Begins(steps)| <= |steps|
    decreases |steps|
  {
    if steps != [] {
      BeginsShort(steps[..|steps| - 1]);
    }
  }
}
