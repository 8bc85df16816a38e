/** The Go server's request handlers: the OCR endpoints (Claude and
    Tesseract), which accept one uploaded image or PDF and answer with its
    text, and the form-filling endpoint, which asks Claude to map document
    text onto the fields of an HTML form. Every foreign call (the Anthropic
    client, PDF rendering, JPEG/PNG encoding, Tesseract, multipart parsing,
    JSON decoding) is replaced by the value it would produce, supplied as a
    parameter. Errors are Go `error` values, modelled by their message;
    `fmt.Errorf("prefix: %w", err)` gives the prefix followed by the wrapped
    message. */
module Handlers {
  import opened Base
  import opened Text

  /** `maxFileSize`: 20 MB. */
  const MaxFileSize: int := 20 * 1024 * 1024

  const NoApiKey := "Anthropic API key not configured"
  const FileRequired := "file is required"
  const FileTooLarge := "file must be less than 20MB"
  const FormHtmlRequired := "formHTML is required"
  const DocumentsTextRequired := "documentsExtractedText is required"
  const FillStatus := "success"
  const FillMessage := "Form filled successfully"

  const JpegType := "image/jpeg"
  const PngType := "image/png"
  const TextBlockType := "text"
  const PageSep := "\n\n"

  /** One content block of a Claude reply. */
  datatype Block = Block(blockType: string, text: string)

  /** What the handlers write back: the JSON `{"text": …}` of the Claude OCR
      endpoint, the plain text of the Tesseract endpoint, the field mapping
      of the form-filling endpoint, or an error reply (`badRequest` answers
      400 with the message, `serverError` answers 500). */
  datatype Reply =
    | JsonText(text: string)
    | PlainText(text: string)
    | FormFilled(status: string, message: string, fields: seq<FieldValue>, totalFields: nat)
    | BadRequest(message: string)
    | ServerError(message: string)

  /** One `{fieldId, value}` entry of the AI's form mapping. */
  datatype FieldValue = FieldValue(fieldId: string, value: string)

  /** The uploaded form file: its name, its declared size, and whether
      reading its content fails. */
  datatype Upload = Upload(filename: string, size: int, readError: Option<string>)

  /** A PDF as the renderer sees it: whether opening it fails, and what
      happens to each of its pages. */
  datatype Pdf<P> = Pdf(openError: Option<string>, pages: seq<P>)

  /** One page on the Claude path: whether rendering fails, whether JPEG
      encoding fails, and Claude's reply to the page image. */
  datatype ClaudePage = ClaudePage(renderError: Option<string>, encodeError: Option<string>, reply: Result<seq<Block>, string>)

  /** One image handed to Tesseract: whether it is refused, and what
      recognition gives. */
  datatype TesseractRun = TesseractRun(setImageError: Option<string>, text: Result<string, string>)

  /** One page on the Tesseract path: whether rendering fails, whether PNG
      encoding fails, and what Tesseract does with the page image. */
  datatype TesseractPage = TesseractPage(renderError: Option<string>, encodeError: Option<string>, ocr: TesseractRun)

  /** The JSON body of a form-filling request. */
  datatype FillInput = FillInput(formHtml: string, documentsExtractedText: string)

  // ----- Claude replies -----------------------------------------------------

  /** The in-order concatenation of the `Text` of the reply's "text" blocks. */
  function BlocksText(blocks: seq<Block>): string
    decreases |blocks|
  {
    if blocks == [] then ""
    else
      var last := blocks[|blocks| - 1];
      BlocksText(blocks[..|blocks| - 1]) + (if last.blockType == TextBlockType then last.text else "")
  }

  /** The concatenation splits along any split of the blocks: each block
      contributes on its own, in order. */
  lemma {:induction false} BlocksTextAppend(a: seq<Block>, b: seq<Block>)
    ensures BlocksText(a + b) == BlocksText(a) + BlocksText(b)
    decreases |b|
  {
    if b != [] {
      var m := |b| - 1;
      assert (a + b)[..|a + b| - 1] == a + b[..m];
      assert (a + b)[|a + b| - 1] == b[m];
      BlocksTextAppend(a, b[..m]);
    } else {
      assert a + b == a;
    }
  }

  /** A block of another type contributes nothing, wherever it stands. */
  lemma OtherBlocksIgnored(a: seq<Block>, x: Block, b: seq<Block>)
    requires x.blockType != TextBlockType
    ensures BlocksText(a + [x] + b) == BlocksText(a + b)
  {
    BlocksTextAppend(a + [x], b);
    assert (a + [x])[..|a|] == a;
    BlocksTextAppend(a, b);
  }

  /** The block loop of `extractTextFromImageData` and of `fillForm`. */
  method ConcatTextBlocks(blocks: seq<Block>) returns (text: string)
    ensures text == BlocksText(blocks)
  {
    text := "";
    var i := 0;
    while i < |blocks|
      invariant 0 <= i <= |blocks|
      invariant text == BlocksText(blocks[..i])
    {
      var block := blocks[i];
      assert blocks[..i + 1][..i] == blocks[..i];
      if block.blockType == TextBlockType {
        text := text + block.text;
      }
      i := i + 1;
    }
    assert blocks[..i] == blocks;
  }

  /** The text a Claude call yields: its error, or the text of its blocks. */
  function ReplyText(reply: Result<seq<Block>, string>): Result<string, string> {
    match reply
    case Err(e) => Err(e)
    case Ok(blocks) => Ok(BlocksText(blocks))
  }

  /** `extractTextFromImageData`: one Claude call on one image. */
  method ExtractTextFromImageData(reply: Result<seq<Block>, string>) returns (r: Result<string, string>)
    ensures r.Err? <==> reply.Err?
    ensures reply.Err? ==> r.error == reply.error
    ensures reply.Ok? ==> r.value == BlocksText(reply.value)
  {
    if reply.Err? {
      return Err(reply.error);
    }
    var text := ConcatTextBlocks(reply.value);
    return Ok(text);
  }

  /** `processImageWithTesseract` */
  function ProcessImageWithTesseract(run: TesseractRun): (r: Result<string, string>)
    ensures r.Ok? <==> run.setImageError.None? && run.text.Ok?
    ensures r.Ok? ==> r.value == run.text.value
    ensures run.setImageError.None? && run.text.Err? ==> HasSuffix(r.error, run.text.error)
  {
    if run.setImageError.Some? then Err("invalid image format: " + run.setImageError.value)
    else if run.text.Err? then Err("OCR processing failed: " + run.text.error)
    else Ok(run.text.value)
  }

  // ----- Page assembly -------------------------------------------------------

  /** The separator line written before page `page` (1-based). */
  function PageHeader(page: nat): string {
    "=== Page " + NatToString(page) + " ===\n"
  }

  /** What page `k` (0-based) of an `n`-page document contributes before the
      separators: its text, headed by its page line when there is more
      than one page. */
  function Section(n: nat, k: nat, text: string): string {
    (if n > 1 then PageHeader(k + 1) else "") + text
  }

  /** The sections of the pages `texts` of an `n`-page document, in order. */
  function Sections(texts: seq<string>, n: nat): (r: seq<string>)
    ensures |r| == |texts|
    decreases |texts|
  {
    if texts == [] then []
    else Sections(texts[..|texts| - 1], n) + [Section(n, |texts| - 1, texts[|texts| - 1])]
  }

  lemma {:induction false} SectionsAt(texts: seq<string>, n: nat, k: nat)
    requires k < |texts|
    ensures Sections(texts, n)[k] == Section(n, k, texts[k])
    decreases |texts|
  {
    var m := |texts| - 1;
    if k < m {
      SectionsAt(texts[..m], n, k);
    }
  }

  /** The document text built from the page texts: the sections joined by a
      blank line, with nothing after the last. */
  function Assemble(texts: seq<string>): string {
    Join(Sections(texts, |texts|), PageSep)
  }

  /** What writing page `k` (0-based) of an `n`-page document adds to the
      builder: its section, then a separator unless it is the last page. */
  function PageChunk(n: nat, k: nat, text: string): string {
    Section(n, k, text) + (if k < n - 1 then PageSep else "")
  }

  /** The builder's content once the pages `texts` of an `n`-page document
      have been written, page after page. */
  function Built(texts: seq<string>, n: nat): string
    decreases |texts|
  {
    if texts == [] then ""
    else Built(texts[..|texts| - 1], n) + PageChunk(n, |texts| - 1, texts[|texts| - 1])
  }

  /** The page writes shared by both PDF loops: the page header when there
      is more than one page, the page text, and the separator unless this
      is the last page. */
  method WritePage(builder: string, numPages: nat, pageNum: nat, pageText: string) returns (b: string)
    ensures b == builder + PageChunk(numPages, pageNum, pageText)
  {
    b := builder;
    if numPages > 1 {
      b := b + PageHeader(pageNum + 1);
    }
    b := b + pageText;
    if pageNum < numPages - 1 {
      b := b + PageSep;
    }
  }

  /** Writing one more page appends its chunk. */
  lemma BuiltSnoc(texts: seq<string>, t: string, n: nat)
    ensures Built(texts + [t], n) == Built(texts, n) + PageChunk(n, |texts|, t)
  {
    assert (texts + [t])[..|texts|] == texts;
  }

  /** Part way through a document, the builder holds the sections written
      so far joined by blank lines, followed by one more blank line because
      another page is still to come. */
  lemma {:induction false} BuiltIsJoin(texts: seq<string>, n: nat)
    requires 0 < |texts| <= n
    ensures Built(texts, n) == Join(Sections(texts, n), PageSep) + (if |texts| < n then PageSep else "")
    decreases |texts|
  {
    var m := |texts| - 1;
    var last := Section(n, m, texts[m]);
    if m > 0 {
      BuiltIsJoin(texts[..m], n);
      JoinSnoc(Sections(texts[..m], n), PageSep, last);
    } else {
      assert Sections(texts, n) == [last];
    }
  }

  /** Once every page is written the builder holds the assembled text. */
  lemma BuiltComplete(texts: seq<string>)
    ensures Built(texts, |texts|) == Assemble(texts)
  {
    if texts != [] {
      BuiltIsJoin(texts, |texts|);
    }
  }

  /** A one-page document is its page's text, with no header. */
  lemma AssembleOnePage(t: string)
    ensures Assemble([t]) == t
  {
    SectionsAt([t], 1, 0);
    assert Section(1, 0, t) == t;
    assert Sections([t], 1) == [t];
  }

  /** With more than one page the text opens with the first page's header
      and that page's text, and it ends with the last page's text: nothing
      follows the last page. */
  lemma {:induction false} AssembleBounds(texts: seq<string>)
    requires |texts| > 1
    ensures PageHeader(1) + texts[0] <= Assemble(texts)
    ensures HasSuffix(Assemble(texts), texts[|texts| - 1])
  {
    var n := |texts|;
    var s := Sections(texts, n);
    SectionsAt(texts, n, 0);
    SectionsAt(texts, n, n - 1);
    assert Assemble(texts) == s[0] + PageSep + Join(s[1..], PageSep);
    JoinEndsWithLast(s, PageSep);
  }

  /** A join ends with its last part. */
  lemma {:induction false} JoinEndsWithLast(parts: seq<string>, sep: string)
    requires |parts| > 0
    ensures HasSuffix(Join(parts, sep), parts[|parts| - 1])
  {
    if |parts| > 1 {
      JoinSnoc(parts[..|parts| - 1], sep, parts[|parts| - 1]);
      assert parts[..|parts| - 1] + [parts[|parts| - 1]] == parts;
    }
  }

  // ----- Per-page results ------------------------------------------------------

  /** What the first failing call on page `k` (0-based) of a PDF on the
      Claude path reports, naming the page 1-based; or the page's text. */
  function ClaudePageResult(p: ClaudePage, k: nat): Result<string, string> {
    var page := NatToString(k + 1);
    if p.renderError.Some? then Err("failed to render page " + page + ": " + p.renderError.value)
    else if p.encodeError.Some? then Err("failed to encode page " + page + " as JPEG: " + p.encodeError.value)
    else match ReplyText(p.reply)
      case Err(e) => Err("failed to extract text from page " + page + ": " + e)
      case Ok(t) => Ok(t)
  }

  /** The same on the Tesseract path. */
  function TesseractPageResult(p: TesseractPage, k: nat): Result<string, string> {
    var page := NatToString(k + 1);
    if p.renderError.Some? then Err("failed to render page " + page + ": " + p.renderError.value)
    else if p.encodeError.Some? then Err("failed to encode page " + page + " as PNG: " + p.encodeError.value)
    else match ProcessImageWithTesseract(p.ocr)
      case Err(e) => Err("failed to OCR page " + page + ": " + e)
      case Ok(t) => Ok(t)
  }

  /** The results of the pages of a document on the Claude path, in order. */
  function ClaudeResults(pages: seq<ClaudePage>): (r: seq<Result<string, string>>)
    ensures |r| == |pages|
    decreases |pages|
  {
    if pages == [] then []
    else ClaudeResults(pages[..|pages| - 1]) + [ClaudePageResult(pages[|pages| - 1], |pages| - 1)]
  }

  lemma {:induction false} ClaudeResultsAt(pages: seq<ClaudePage>, k: nat)
    requires k < |pages|
    ensures ClaudeResults(pages)[k] == ClaudePageResult(pages[k], k)
    decreases |pages|
  {
    var m := |pages| - 1;
    if k < m {
      ClaudeResultsAt(pages[..m], k);
    }
  }

  /** The results of the pages of a document on the Tesseract path, in order. */
  function TesseractResults(pages: seq<TesseractPage>): (r: seq<Result<string, string>>)
    ensures |r| == |pages|
    decreases |pages|
  {
    if pages == [] then []
    else TesseractResults(pages[..|pages| - 1]) + [TesseractPageResult(pages[|pages| - 1], |pages| - 1)]
  }

  lemma {:induction false} TesseractResultsAt(pages: seq<TesseractPage>, k: nat)
    requires k < |pages|
    ensures TesseractResults(pages)[k] == TesseractPageResult(pages[k], k)
    decreases |pages|
  {
    var m := |pages| - 1;
    if k < m {
      TesseractResultsAt(pages[..m], k);
    }
  }

  /** The pages' texts in order, or the error of the first page that fails. */
  function Collect(results: seq<Result<string, string>>): Result<seq<string>, string>
    decreases |results|
  {
    if results == [] then Ok([])
    else
      match Collect(results[..|results| - 1])
      case Err(e) => Err(e)
      case Ok(texts) =>
        match results[|results| - 1]
        case Err(e) => Err(e)
        case Ok(t) => Ok(texts + [t])
  }

  /** When every page succeeds the texts are collected in page order. */
  lemma {:induction false} CollectAllOk(results: seq<Result<string, string>>, texts: seq<string>)
    requires |texts| == |results|
    requires forall k :: 0 <= k < |results| ==> results[k] == Ok(texts[k])
    ensures Collect(results) == Ok(texts)
    decreases |results|
  {
    if results != [] {
      var m := |results| - 1;
      CollectAllOk(results[..m], texts[..m]);
      assert texts[..m] + [texts[m]] == texts;
    }
  }

  /** A failing page aborts the whole document with its own error, provided
      every earlier page succeeded: the first failure wins. */
  lemma {:induction false} CollectFirstErr(results: seq<Result<string, string>>, k: nat)
    requires k < |results| && results[k].Err?
    requires forall j :: 0 <= j < k ==> results[j].Ok?
    ensures Collect(results) == Err(results[k].error)
    decreases |results|
  {
    var m := |results| - 1;
    if k < m {
      CollectFirstErr(results[..m], k);
    } else {
      var texts := seq(m, j requires 0 <= j < m => results[j].value);
      CollectAllOk(results[..m], texts);
    }
  }

  /** A document yields text only when every page does: no partial text. */
  lemma {:induction false} CollectOkOnlyIfAllOk(results: seq<Result<string, string>>)
    requires Collect(results).Ok?
    ensures |Collect(results).value| == |results|
    ensures forall k :: 0 <= k < |results| ==> results[k] == Ok(Collect(results).value[k])
    decreases |results|
  {
    if results != [] {
      var m := |results| - 1;
      CollectOkOnlyIfAllOk(results[..m]);
    }
  }

  /** What `processPDF` / `processPDFWithTesseract` return for a document
      whose pages give `results`. */
  function PdfResult(openError: Option<string>, results: seq<Result<string, string>>): Result<string, string> {
    if openError.Some? then Err("failed to open PDF: " + openError.value)
    else
      match Collect(results)
      case Err(e) => Err(e)
      case Ok(texts) => Ok(Assemble(texts))
  }

  /** Both PDF paths assemble pages by the same rule: documents whose pages
      yield the same texts yield the same text, whichever engine read them. */
  lemma {:induction false} PathsAssembleAlike(c: Pdf<ClaudePage>, t: Pdf<TesseractPage>, texts: seq<string>)
    requires c.openError.None? && t.openError.None?
    requires |c.pages| == |t.pages| == |texts|
    requires forall k :: 0 <= k < |texts| ==> ClaudePageResult(c.pages[k], k) == Ok(texts[k])
    requires forall k :: 0 <= k < |texts| ==> TesseractPageResult(t.pages[k], k) == Ok(texts[k])
    ensures PdfResult(c.openError, ClaudeResults(c.pages)) == PdfResult(t.openError, TesseractResults(t.pages)) == Ok(Assemble(texts))
  {
    forall k | 0 <= k < |texts|
      ensures ClaudeResults(c.pages)[k] == Ok(texts[k]) && TesseractResults(t.pages)[k] == Ok(texts[k])
    {
      ClaudeResultsAt(c.pages, k);
      TesseractResultsAt(t.pages, k);
    }
    CollectAllOk(ClaudeResults(c.pages), texts);
    CollectAllOk(TesseractResults(t.pages), texts);
  }

  /** The body of the page loop of `processPDF`: render page `pageNum`
      (0-based), encode it as JPEG and read it, reporting the first failure
      with the page's 1-based number. */
  method ProcessClaudePage(p: ClaudePage, pageNum: nat) returns (r: Result<string, string>)
    ensures r == ClaudePageResult(p, pageNum)
  {
    var page := NatToString(pageNum + 1);
    if p.renderError.Some? {
      return Err("failed to render page " + page + ": " + p.renderError.value);
    }
    if p.encodeError.Some? {
      return Err("failed to encode page " + page + " as JPEG: " + p.encodeError.value);
    }
    var pageText := ExtractTextFromImageData(p.reply);
    if pageText.Err? {
      return Err("failed to extract text from page " + page + ": " + pageText.error);
    }
    return Ok(pageText.value);
  }

  /** `processPDF`: renders, encodes and reads every page in turn, stopping
      at the first failure. */
  method ProcessPdf(doc: Pdf<ClaudePage>) returns (r: Result<string, string>)
    ensures r == PdfResult(doc.openError, ClaudeResults(doc.pages))
  {
    if doc.openError.Some? {
      return Err("failed to open PDF: " + doc.openError.value);
    }
    ghost var results := ClaudeResults(doc.pages);
    var n := |doc.pages|;
    var builder := "";
    ghost var texts: seq<string> := [];
    var pageNum := 0;
    while pageNum < n
      invariant 0 <= pageNum <= n && |texts| == pageNum
      invariant forall j :: 0 <= j < pageNum ==> results[j] == Ok(texts[j])
      invariant builder == Built(texts, n)
    {
      var pageText := ProcessClaudePage(doc.pages[pageNum], pageNum);
      ClaudeResultsAt(doc.pages, pageNum);
      if pageText.Err? {
        CollectFirstErr(results, pageNum);
        return Err(pageText.error);
      }
      BuiltSnoc(texts, pageText.value, n);
      builder := WritePage(builder, n, pageNum, pageText.value);
      texts := texts + [pageText.value];
      pageNum := pageNum + 1;
    }
    CollectAllOk(results, texts);
    BuiltComplete(texts);
    return Ok(builder);
  }

  /** The body of the page loop of `processPDFWithTesseract`: render page `pageNum`
      (0-based), encode it as PNG and read it, reporting the first failure
      with the page's 1-based number. */
  method ProcessTesseractPage(p: TesseractPage, pageNum: nat) returns (r: Result<string, string>)
    ensures r == TesseractPageResult(p, pageNum)
  {
    var page := NatToString(pageNum + 1);
    if p.renderError.Some? {
      return Err("failed to render page " + page + ": " + p.renderError.value);
    }
    if p.encodeError.Some? {
      return Err("failed to encode page " + page + " as PNG: " + p.encodeError.value);
    }
    var pageText := ProcessImageWithTesseract(p.ocr);
    if pageText.Err? {
      return Err("failed to OCR page " + page + ": " + pageText.error);
    }
    return Ok(pageText.value);
  }

  /** `processPDFWithTesseract`: the same loop with PNG encoding and
      Tesseract in place of JPEG encoding and Claude. */
  method ProcessPdfWithTesseract(doc: Pdf<TesseractPage>) returns (r: Result<string, string>)
    ensures r == PdfResult(doc.openError, TesseractResults(doc.pages))
  {
    if doc.openError.Some? {
      return Err("failed to open PDF: " + doc.openError.value);
    }
    ghost var results := TesseractResults(doc.pages);
    var n := |doc.pages|;
    var builder := "";
    ghost var texts: seq<string> := [];
    var pageNum := 0;
    while pageNum < n
      invariant 0 <= pageNum <= n && |texts| == pageNum
      invariant forall j :: 0 <= j < pageNum ==> results[j] == Ok(texts[j])
      invariant builder == Built(texts, n)
    {
      var pageText := ProcessTesseractPage(doc.pages[pageNum], pageNum);
      TesseractResultsAt(doc.pages, pageNum);
      if pageText.Err? {
        CollectFirstErr(results, pageNum);
        return Err(pageText.error);
      }
      BuiltSnoc(texts, pageText.value, n);
      builder := WritePage(builder, n, pageNum, pageText.value);
      texts := texts + [pageText.value];
      pageNum := pageNum + 1;
    }
    CollectAllOk(results, texts);
    BuiltComplete(texts);
    return Ok(builder);
  }

  // ----- File classification -----------------------------------------------

  /** The file is treated as a PDF: its lower-cased name ends in ".pdf". */
  predicate IsPdf(filename: string) {
    HasSuffix(ToLower(filename), ".pdf")
  }

  /** The media type sent to Claude for an image upload. */
  function MediaType(filename: string): (r: string)
    ensures r == PngType || r == JpegType
    ensures r == PngType <==> |filename| > 4 && ToLower(filename[|filename| - 4..]) == ".png"
  {
    if |filename| > 4 then
      var ext := ToLower(filename[|filename| - 4..]);
      if ext == ".png" then PngType
      else if ext == ".jpg" || ext == "jpeg" then JpegType
      else JpegType
    else JpegType
  }

  /** Lower-casing commutes with taking a suffix. */
  lemma ToLowerSuffix(s: string, k: nat)
    requires k <= |s|
    ensures ToLower(s)[k..] == ToLower(s[k..])
  {
  }

  /** Both tests ignore the case of the file name. */
  lemma ClassificationIgnoresCase(filename: string)
    ensures IsPdf(ToLower(filename)) == IsPdf(filename)
    ensures MediaType(ToLower(filename)) == MediaType(filename)
  {
    ToLowerIdempotent(filename);
    if |filename| > 4 {
      var k := |filename| - 4;
      ToLowerSuffix(filename, k);
      ToLowerIdempotent(filename[k..]);
    }
  }

  /** The PDF test accepts a name of four characters while the PNG test
      needs five: ".pdf" is a PDF but ".png" is sent as JPEG. */
  lemma ShortNames()
    ensures IsPdf(".pdf")
    ensures MediaType(".png") == JpegType
    ensures MediaType("a.PNG") == PngType
  {
    assert ToLower(".pdf") == ".pdf";
    assert ToLower(".PNG") == ".png";
  }

  // ----- Handlers ------------------------------------------------------------

  /** The checks both OCR endpoints make on the upload, in order: the
      multipart form must parse, it must carry a file, the file may be at
      most 20 MB, and its content must be readable. `None` means the upload
      is accepted; otherwise the reply to send. */
  function UploadRejection(formError: Option<string>, file: Option<Upload>): (r: Option<Reply>)
    ensures r.None? <==> formError.None? && file.Some? && file.value.size <= MaxFileSize && file.value.readError.None?
  {
    if formError.Some? then Some(BadRequest(formError.value))
    else if file.None? then Some(BadRequest(FileRequired))
    else if file.value.size > MaxFileSize then Some(BadRequest(FileTooLarge))
    else if file.value.readError.Some? then Some(ServerError(file.value.readError.value))
    else None
  }

  /** The size limit is inclusive: exactly 20 MB is accepted, one byte more
      is refused as too large, whatever else holds. */
  lemma SizeLimitInclusive(name: string, readError: Option<string>)
    ensures UploadRejection(None, Some(Upload(name, MaxFileSize, readError))) ==
            (if readError.Some? then Some(ServerError(readError.value)) else None)
    ensures UploadRejection(None, Some(Upload(name, MaxFileSize + 1, readError))) == Some(BadRequest(FileTooLarge))
  {
  }

  /** A bad request is answered before the file is read, and every error
      reply is a 400 or a 500. */
  lemma RejectionsAreErrors(formError: Option<string>, file: Option<Upload>)
    ensures UploadRejection(formError, file).Some? ==>
              UploadRejection(formError, file).value.BadRequest? || UploadRejection(formError, file).value.ServerError?
    ensures formError.None? ==>
              (UploadRejection(formError, file) == Some(BadRequest(FileTooLarge)) <==>
               file.Some? && file.value.size > MaxFileSize)
  {
  }

  /** The reply to an accepted upload, given the text or error obtained. */
  function Answer(res: Result<string, string>, plain: bool): Reply {
    match res
    case Err(e) => ServerError(e)
    case Ok(t) => if plain then PlainText(t) else JsonText(t)
  }

  /** `extractTextFromImage`: the Claude OCR endpoint. `vision` is Claude's
      reply to an image sent with a given media type. */
  method ExtractTextFromImage(apiKey: string, formError: Option<string>, file: Option<Upload>,
                              pdf: Pdf<ClaudePage>, vision: string -> Result<seq<Block>, string>)
    returns (r: Reply)
    ensures apiKey == "" ==> r == ServerError(NoApiKey)
    ensures apiKey != "" && UploadRejection(formError, file).Some? ==> r == UploadRejection(formError, file).value
    ensures apiKey != "" && UploadRejection(formError, file).None? && IsPdf(file.value.filename) ==>
              r == Answer(PdfResult(pdf.openError, ClaudeResults(pdf.pages)), false)
    ensures apiKey != "" && UploadRejection(formError, file).None? && !IsPdf(file.value.filename) ==>
              r == Answer(ReplyText(vision(MediaType(file.value.filename))), false)
  {
    if apiKey == "" {
      return ServerError(NoApiKey);
    }
    var rejection := UploadRejection(formError, file);
    if rejection.Some? {
      return rejection.value;
    }
    var extracted: Result<string, string>;
    if IsPdf(file.value.filename) {
      extracted := ProcessPdf(pdf);
    } else {
      extracted := ExtractTextFromImageData(vision(MediaType(file.value.filename)));
    }
    return Answer(extracted, false);
  }

  /** `extractTextFromImageTesseract`: the Tesseract OCR endpoint, which
      needs no API key. */
  method ExtractTextFromImageTesseract(formError: Option<string>, file: Option<Upload>,
                                       pdf: Pdf<TesseractPage>, image: TesseractRun)
    returns (r: Reply)
    ensures UploadRejection(formError, file).Some? ==> r == UploadRejection(formError, file).value
    ensures UploadRejection(formError, file).None? && IsPdf(file.value.filename) ==>
              r == Answer(PdfResult(pdf.openError, TesseractResults(pdf.pages)), true)
    ensures UploadRejection(formError, file).None? && !IsPdf(file.value.filename) ==>
              r == Answer(ProcessImageWithTesseract(image), true)
  {
    var rejection := UploadRejection(formError, file);
    if rejection.Some? {
      return rejection.value;
    }
    var extracted: Result<string, string>;
    if IsPdf(file.value.filename) {
      extracted := ProcessPdfWithTesseract(pdf);
    } else {
      extracted := ProcessImageWithTesseract(image);
    }
    return Answer(extracted, true);
  }

  // ----- Form filling ----------------------------------------------------------

  const JsonFence := "```json"
  const Fence := "```"

  /** At most one leading "```json", then at most one leading "```", then
      at most one trailing "```" are removed. */
  function StripFences(s: string): (r: string)
    ensures |r| <= |s|
  {
    TrimSuffix(TrimPrefix(TrimPrefix(s, JsonFence), Fence), Fence)
  }

  /** The clean-up of Claude's form mapping: fences are stripped from the
      trimmed reply and the result is trimmed again. */
  function CleanResponse(s: string): (r: string)
    ensures IsTrimmed(r) && |r| <= |s|
  {
    var d := StripFences(TrimSpace(s));
    TrimSpaceSpec(d);
    TrimSpace(d)
  }

  predicate AllSpace(w: string) {
    forall i :: 0 <= i < |w| ==> IsSpace(w[i])
  }

  /** Trimming removes exactly surrounding white space from a trimmed core. */
  lemma {:induction false} TrimSpaceAround(w1: string, m: string, w2: string)
    requires AllSpace(w1) && AllSpace(w2) && IsTrimmed(m)
    ensures TrimSpace(w1 + m + w2) == m
  {
    if m != [] {
      assert (m + w2)[0] == m[0];
      assert w1 + m + w2 == w1 + (m + w2);
      TrimLeftAround(w1, m + w2);
      TrimRightAround(m, w2);
    } else {
      assert AllSpace(w1 + w2) by {
        forall i | 0 <= i < |w1 + w2| ensures IsSpace((w1 + w2)[i]) {
          if i >= |w1| { assert (w1 + w2)[i] == w2[i - |w1|]; }
        }
      }
      assert w1 + m + w2 == (w1 + w2) + [];
      TrimLeftAround(w1 + w2, []);
    }
  }

  lemma {:induction false} TrimLeftAround(w: string, s: string)
    requires AllSpace(w) && (s == [] || !IsSpace(s[0]))
    ensures TrimLeftSpace(w + s) == s
    decreases |w|
  {
    if w != [] {
      assert (w + s)[1..] == w[1..] + s;
      TrimLeftAround(w[1..], s);
    }
  }

  lemma {:induction false} TrimRightAround(s: string, w: string)
    requires AllSpace(w) && (s == [] || !IsSpace(s[|s| - 1]))
    ensures TrimRightSpace(s + w) == s
    decreases |w|
  {
    if w != [] {
      var m := |w| - 1;
      assert (s + w)[..|s + w| - 1] == s + w[..m];
      TrimRightAround(s, w[..m]);
    } else {
      assert s + w == s;
    }
  }

  /** A "```json" fence is stripped whole when white space follows it. */
  lemma StripJsonFence(inner: string)
    requires inner != [] && IsSpace(inner[0])
    ensures StripFences(JsonFence + inner + Fence) == inner
  {
    var x := JsonFence + inner + Fence;
    assert x[|JsonFence|..] == inner + Fence;
    assert !(Fence <= inner + Fence) by { assert (inner + Fence)[0] == inner[0]; }
    assert (inner + Fence)[..|inner|] == inner;
  }

  /** A bare "```" fence is stripped whole when white space follows it. */
  lemma StripBareFence(inner: string)
    requires inner != [] && IsSpace(inner[0])
    ensures StripFences(Fence + inner + Fence) == inner
  {
    var x := Fence + inner + Fence;
    assert !(JsonFence <= x) by { assert x[3] == inner[0]; }
    assert x[|Fence|..] == inner + Fence;
    assert (inner + Fence)[..|inner|] == inner;
  }

  /** A reply wrapped in a "```json" fence (white space around the fences,
      at least one white-space character after the opening one) cleans to
      the JSON it wraps. */
  lemma {:induction false} CleanJsonFence(w1: string, w2: string, body: string, w3: string, w4: string)
    requires AllSpace(w1) && AllSpace(w2) && AllSpace(w3) && AllSpace(w4)
    requires w2 != [] && IsTrimmed(body)
    ensures CleanResponse(w1 + JsonFence + w2 + body + w3 + Fence + w4) == body
  {
    var inner := w2 + body + w3;
    var core := JsonFence + inner + Fence;
    assert w1 + JsonFence + w2 + body + w3 + Fence + w4 == w1 + core + w4;
    assert IsTrimmed(core) by { assert core[0] == '`' && core[|core| - 1] == '`'; }
    TrimSpaceAround(w1, core, w4);
    assert inner[0] == w2[0];
    StripJsonFence(inner);
    TrimSpaceAround(w2, body, w3);
  }

  /** The same for a bare "```" fence. */
  lemma {:induction false} CleanBareFence(w1: string, w2: string, body: string, w3: string, w4: string)
    requires AllSpace(w1) && AllSpace(w2) && AllSpace(w3) && AllSpace(w4)
    requires w2 != [] && IsTrimmed(body)
    ensures CleanResponse(w1 + Fence + w2 + body + w3 + Fence + w4) == body
  {
    var inner := w2 + body + w3;
    var core := Fence + inner + Fence;
    assert w1 + Fence + w2 + body + w3 + Fence + w4 == w1 + core + w4;
    assert IsTrimmed(core) by { assert core[0] == '`' && core[|core| - 1] == '`'; }
    TrimSpaceAround(w1, core, w4);
    assert inner[0] == w2[0];
    StripBareFence(inner);
    TrimSpaceAround(w2, body, w3);
  }

  /** A reply that is already bare JSON (no fence at either end) is only
      stripped of its surrounding white space. */
  lemma {:induction false} CleanBareJson(w1: string, body: string, w4: string)
    requires AllSpace(w1) && AllSpace(w4) && IsTrimmed(body)
    requires !(Fence <= body) && !HasSuffix(body, Fence)
    ensures CleanResponse(w1 + body + w4) == body
  {
    TrimSpaceAround(w1, body, w4);
    assert Fence <= JsonFence;
    assert TrimPrefix(body, JsonFence) == body;
    assert StripFences(body) == body;
    TrimSpaceSpec(body);
  }

  /** `fillForm`: validates the request, asks Claude for a field mapping,
      cleans the reply and parses it. `unmarshal` is the JSON decoding of
      the cleaned reply into the field list. */
  method FillForm(apiKey: string, body: Result<FillInput, string>, reply: Result<seq<Block>, string>,
                  unmarshal: string -> Result<seq<FieldValue>, string>)
    returns (r: Reply)
    ensures apiKey == "" ==> r == ServerError(NoApiKey)
    ensures apiKey != "" && body.Err? ==> r == BadRequest(body.error)
    ensures apiKey != "" && body.Ok? && body.value.formHtml == "" ==> r == BadRequest(FormHtmlRequired)
    ensures apiKey != "" && body.Ok? && body.value.formHtml != "" && body.value.documentsExtractedText == "" ==>
              r == BadRequest(DocumentsTextRequired)
    ensures r.FormFilled? || r.ServerError? ==>
              apiKey == "" || (body.Ok? && body.value.formHtml != "" && body.value.documentsExtractedText != "")
    ensures r.FormFilled? <==>
              apiKey != "" && body.Ok? && body.value.formHtml != "" && body.value.documentsExtractedText != "" &&
              reply.Ok? && unmarshal(CleanResponse(BlocksText(reply.value))).Ok?
    ensures r.FormFilled? ==>
              r == FormFilled(FillStatus, FillMessage, unmarshal(CleanResponse(BlocksText(reply.value))).value,
                              |r.fields|)
    ensures (apiKey != "" && body.Ok? && body.value.formHtml != "" && body.value.documentsExtractedText != "" &&
             reply.Err?) ==> r == ServerError(reply.error)
    ensures (apiKey != "" && body.Ok? && body.value.formHtml != "" && body.value.documentsExtractedText != "" &&
             reply.Ok? && unmarshal(CleanResponse(BlocksText(reply.value))).Err?) ==>
              r == ServerError("failed to parse AI response: " + unmarshal(CleanResponse(BlocksText(reply.value))).error)
  {
    if apiKey == "" {
      return ServerError(NoApiKey);
    }
    if body.Err? {
      return BadRequest(body.error);
    }
    var input := body.value;
    if input.formHtml == "" {
      return BadRequest(FormHtmlRequired);
    }
    if input.documentsExtractedText == "" {
      return BadRequest(DocumentsTextRequired);
    }
    if reply.Err? {
      return ServerError(reply.error);
    }
    var responseText := ConcatTextBlocks(reply.value);
    responseText := CleanResponse(responseText);
    var parsed := unmarshal(responseText);
    if parsed.Err? {
      return ServerError("failed to parse AI response: " + parsed.error);
    }
    return FormFilled(FillStatus, FillMessage, parsed.value, |parsed.value|);
  }
}
