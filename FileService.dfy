/**
 * `services/file_service.py`: what happens to an uploaded file. `process_uploaded_file`
 * checks the size, stores the file under its MD5, reuses a cached extraction, picks the
 * extractor by type, falls back to OCR, and cleans up a newly stored file when it fails.
 * `perform_ocr_on_pdf` labels one section per page, `generate_pdf_from_text` lays the text
 * out line by line and page by page, `extract_images_from_docx` numbers the images it finds,
 * and `_safe_file_cleanup` retries a deletion a bounded number of times.
 *
 * The file system, the PDF and Word libraries, MD5 and the OCR model are outside the model:
 * what they report comes in as parameters, and what the code asks of the file system is
 * recorded as a list of effects.
 */
module FileService {
  import opened Wrappers
  import opened Strings
  import opened Paths

  const UploadsUrl := "/api/uploads/"
  const OcrThreshold := 100

  const PdfType := "application/pdf"
  const DocxType := "application/vnd.openxmlformats-officedocument.wordprocessingml.document"
  const DocType := "application/msword"

  /** What the request carries: the client's file name and content type, and the size of the body. */
  datatype Upload = Upload(filename: Option<string>, contentType: Option<string>, size: nat)

  /** `file.filename or default`: an absent or empty name counts as missing. */
  function NameOr(filename: Option<string>, default: string): string
  {
    if filename.Some? && filename.value != [] then filename.value else default
  }

  /** `f"{md5}_{Path(file.filename or 'unknown_file').name}"`: the name the file is stored under. */
  function StoredName(md5: string, filename: Option<string>): string
  {
    md5 + "_" + PathName(NameOr(filename, "unknown_file"))
  }

  /** `file_path.with_suffix(file_path.suffix + ".txt")`: the stored name with `.txt` added. */
  function CacheName(stored: string): string
  {
    stored + ".txt"
  }

  /** `f"ocr_{file_path.name}.pdf"`: the PDF generated from recognised text. */
  function OcrPdfName(stored: string): string
  {
    "ocr_" + stored + ".pdf"
  }

  /** The stored file sits directly in the upload directory: after the MD5 and `_` there is no `/`. */
  lemma StoredNameIsOneComponent(md5: string, filename: Option<string>)
    ensures StartsWith(StoredName(md5, filename), md5 + "_")
    ensures !Contains(StoredName(md5, filename)[|md5| + 1..], "/")
  {
    var name := PathName(NameOr(filename, "unknown_file"));
    var stored := StoredName(md5, filename);
    assert stored[..|md5| + 1] == md5 + "_";
    assert stored[|md5| + 1..] == name;
    PathNameNoSlash(NameOr(filename, "unknown_file"));
  }

  datatype FileKind = Pdf | Docx | Doc | Image | Unsupported

  /**
   * Lines 483-488, tried in the order of lines 493-543: PDF first, then Word, then old Word,
   * then images. A content type and a file-name ending each suffice; the name is compared
   * in lower case.
   */
  function Kind(filename: Option<string>, contentType: Option<string>): FileKind
  {
    var name := Lower(NameOr(filename, ""));
    if contentType == Some(PdfType) || EndsWith(name, ".pdf") then Pdf
    else if contentType == Some(DocxType) || EndsWith(name, ".docx") || EndsWith(name, ".docm") then Docx
    else if contentType == Some(DocType) || EndsWith(name, ".doc") then Doc
    else if (contentType.Some? && StartsWith(contentType.value, "image/"))
      || EndsWith(name, ".png") || EndsWith(name, ".jpg") || EndsWith(name, ".jpeg")
      || EndsWith(name, ".bmp") || EndsWith(name, ".webp") then Image
    else Unsupported
  }

  /**
   * A name ending in `.doc`, in any case, is refused as old Word unless the content type says
   * PDF or Word: the name cannot also end in `.pdf`, `.docx` or `.docm`.
   */
  lemma OldWordByName(filename: string, contentType: Option<string>)
    requires EndsWith(Lower(filename), ".doc")
    requires contentType != Some(PdfType) && contentType != Some(DocxType)
    ensures Kind(Some(filename), contentType) == Doc
  {
    var name := Lower(filename);
    assert name[|name| - 1] == 'c';
    assert !EndsWith(name, ".pdf") && !EndsWith(name, ".docx") && !EndsWith(name, ".docm") by {
      assert ".pdf"[3] == 'f' && ".docx"[4] == 'x' && ".docm"[4] == 'm';
    }
  }

  /** `re.sub(r'\s+', '', text)`: the text without whitespace. */
  function Squeezed(text: string): (r: string)
    ensures |r| <= |text|
    ensures forall k :: 0 <= k < |r| ==> !IsSpace(r[k])
    ensures (forall k :: 0 <= k < |text| ==> !IsSpace(text[k])) ==> r == text
    ensures (forall k :: 0 <= k < |text| ==> IsSpace(text[k])) ==> r == []
  {
    if text == [] then []
    else Squeezed(text[..|text| - 1]) + (if IsSpace(text[|text| - 1]) then [] else [text[|text| - 1]])
  }

  /** Squeezing works piece by piece: the characters kept from `a + b` are those kept from `a`, then from `b`. */
  lemma {:induction false} SqueezedAppend(a: string, b: string)
    ensures Squeezed(a + b) == Squeezed(a) + Squeezed(b)
    decreases |b|
  {
    if b == [] {
      assert a + b == a;
    } else {
      var b' := b[..|b| - 1];
      SqueezedAppend(a, b');
      assert (a + b)[..|a + b| - 1] == a + b';
      assert (a + b)[|a + b| - 1] == b[|b| - 1];
    }
  }

  /** Why an upload is refused; each case raises with its own message in the source. */
  datatype UploadError =
    | TooLarge                                 // over `max_file_size`
    | WordOnlyUnreadableImages                 // "该 Word 文档仅包含图片，且 OCR 识别未能提取到文字。"
    | WordWithoutText                          // "未能从该 Word 文档中提取到任何文字内容。"
    | OldWordFormat                            // "暂不支持旧版 Word (.doc) 格式。请将其转换为 .docx 格式后再上传。"
    | ImageWithoutText                         // "无法从该图片中提取文字内容，OCR 识别结果为空。"
    | UnsupportedType(contentType: Option<string>)  // f"不支持的文件类型: {file.content_type}"
    | NoText                                   // "无法从该文件中提取文字内容。"
    | ExtractorFailed(message: string)         // what the PDF or Word extractor raised, re-raised as is

  /** What the file system reports about the stored file and its cached extraction. */
  datatype Storage = Storage(uploadExists: bool, cacheExists: bool, cachedText: string)

  /**
   * What the extractors return for this file: the PDF text layer and its OCR, the Word text
   * and the OCR of each image in the document (empty when recognition gave nothing), and the
   * OCR of an image file. The PDF and Word text extractors can fail, after all their
   * fallbacks, with the message they raise (`PDF文件读取失败: …` at lines 264-266,
   * `Word 文档解析全面失败。…` at line 286).
   */
  datatype Extractors = Extractors(pdfText: Result<string, string>, pdfOcr: string, wordText: Result<string, string>,
                                   wordImageOcr: seq<string>, imageOcr: string)

  /** What the handler asks of the file system and the background queue, in order. */
  datatype Effect =
    | SaveUpload(name: string)
    | RunPdfOcr
    | GeneratePdf(name: string, text: string)
    | WriteCache(name: string, text: string)
    | Vectorize(text: string, name: string)
    | RemoveUpload(name: string)

  /** The text a successful extraction found, whether a new PDF must be made of it, and whether PDF OCR ran. */
  datatype Extraction = Extraction(text: string, needsNewFile: bool, ranPdfOcr: bool)

  /** `f"--- 图片 {i} (OCR) ---\n{img_text}"` for every image, counted from 1, whose OCR gave text. */
  function ImageSections(ocr: seq<string>): (sections: seq<string>)
    ensures |sections| <= |ocr|
  {
    if ocr == [] then []
    else
      var i := |ocr|;
      ImageSections(ocr[..i - 1]) + (if ocr[i - 1] == [] then [] else ["--- 图片 " + NatToString(i) + " (OCR) ---\n" + ocr[i - 1]])
  }

  /** No image gave text exactly when there are no sections. */
  lemma {:induction false} ImageSectionsEmpty(ocr: seq<string>)
    ensures ImageSections(ocr) == [] <==> forall k :: 0 <= k < |ocr| ==> ocr[k] == []
  {
    if ocr != [] {
      ImageSectionsEmpty(ocr[..|ocr| - 1]);
      assert forall k :: 0 <= k < |ocr| - 1 ==> ocr[..|ocr| - 1][k] == ocr[k];
    }
  }

  /** Every section opens with its label. */
  lemma {:induction false} ImageSectionsLabelled(ocr: seq<string>)
    ensures forall k :: 0 <= k < |ImageSections(ocr)| ==> StartsWith(ImageSections(ocr)[k], "--- 图片 ")
  {
    if ocr != [] {
      ImageSectionsLabelled(ocr[..|ocr| - 1]);
    }
  }

  /** Lines 493-543: the extractor the kind selects, with the OCR fallbacks. */
  function Extract(kind: FileKind, contentType: Option<string>, ex: Extractors): (r: Result<Extraction, UploadError>)
  {
    match kind
    case Pdf =>
      (match ex.pdfText
       case Err(m) => Err(ExtractorFailed(m))
       case Ok(text) =>
         if |Squeezed(text)| > OcrThreshold then Ok(Extraction(text, false, false))
         else if |ex.pdfOcr| > |text| then Ok(Extraction(ex.pdfOcr, true, true))
         else Ok(Extraction(text, false, true)))
    case Docx =>
      if ex.wordText.Err? then Err(ExtractorFailed(ex.wordText.error))
      else if !IsBlank(ex.wordText.value) then Ok(Extraction(ex.wordText.value, false, false))
      else if ex.wordImageOcr == [] then Err(WordWithoutText)
      else
        var sections := ImageSections(ex.wordImageOcr);
        if sections == [] then Err(WordOnlyUnreadableImages)
        else Ok(Extraction(Join(sections, "\n\n"), true, false))
    case Doc => Err(OldWordFormat)
    case Image =>
      if ex.imageOcr != [] then Ok(Extraction(ex.imageOcr, true, false)) else Err(ImageWithoutText)
    case Unsupported => Err(UnsupportedType(contentType))
  }

  /** The handler's answer, `(text, file_url)` or the error it raises, and the effects on the way. */
  datatype UploadResult = UploadResult(outcome: Result<(string, string), UploadError>, effects: seq<Effect>)

  /**
   * `process_uploaded_file` (lines 440-578): `md5` stands for the MD5 of the body,
   * `background` for whether a background-task queue was passed.
   */
  function ProcessUpload(file: Upload, maxSize: nat, md5: string, store: Storage, ex: Extractors, background: bool): UploadResult
  {
    Respond(file, maxSize, md5, store, Extract(Kind(file.filename, file.contentType), file.contentType, ex), background)
  }

  /**
   * The handler around the extraction: the size check, storing, the cache, and what follows
   * the extraction, whose outcome is `extracted` (it is only looked at when the file is new
   * or has no cache).
   */
  function Respond(file: Upload, maxSize: nat, md5: string, store: Storage, extracted: Result<Extraction, UploadError>, background: bool): UploadResult
  {
    if file.size > maxSize then UploadResult(Err(TooLarge), [])
    else
      var stored := StoredName(md5, file.filename);
      var saved := if store.uploadExists then [] else [SaveUpload(stored)];
      var cleanup := if store.uploadExists then [] else [RemoveUpload(stored)];
      if store.uploadExists && store.cacheExists then
        UploadResult(Ok((store.cachedText, UploadsUrl + stored)), saved)
      else
        match extracted
        case Err(e) => UploadResult(Err(e), saved + cleanup)
        case Ok(x) =>
          var ocr := if x.ranPdfOcr then [RunPdfOcr] else [];
          if IsBlank(x.text) then UploadResult(Err(NoText), saved + ocr + cleanup)
          else
            var url := if x.needsNewFile then UploadsUrl + OcrPdfName(stored) else UploadsUrl + stored;
            var made := if x.needsNewFile then [GeneratePdf(OcrPdfName(stored), x.text)] else [];
            var queued := if background then [Vectorize(x.text, stored)] else [];
            UploadResult(Ok((x.text, url)), saved + ocr + made + [WriteCache(CacheName(stored), x.text)] + queued)
  }

  /** A body over the limit is refused before anything is written. */
  lemma TooLargeWritesNothing(file: Upload, maxSize: nat, md5: string, store: Storage, ex: Extractors, background: bool)
    ensures ProcessUpload(file, maxSize, md5, store, ex, background).outcome == Err(TooLarge) <==> file.size > maxSize
    ensures file.size > maxSize ==> ProcessUpload(file, maxSize, md5, store, ex, background).effects == []
  {
  }

  /** A file stored before whose extraction is cached is answered from the cache, with nothing extracted or written. */
  lemma CachedUploadAnswersFromCache(file: Upload, maxSize: nat, md5: string, store: Storage, extracted: Result<Extraction, UploadError>, background: bool)
    requires file.size <= maxSize && store.uploadExists && store.cacheExists
    ensures Respond(file, maxSize, md5, store, extracted, background)
      == UploadResult(Ok((store.cachedText, UploadsUrl + StoredName(md5, file.filename))), [])
  {
  }

  /** The body is saved, first of all, exactly when no file of that name was stored. */
  lemma UploadSavedWhenNew(file: Upload, maxSize: nat, md5: string, store: Storage, extracted: Result<Extraction, UploadError>, background: bool)
    requires file.size <= maxSize
    ensures var r := Respond(file, maxSize, md5, store, extracted, background);
      && (SaveUpload(StoredName(md5, file.filename)) in r.effects <==> !store.uploadExists)
      && (!store.uploadExists ==> r.effects[0] == SaveUpload(StoredName(md5, file.filename)))
  {
    if store.uploadExists {
      ExistingFileKept(file, maxSize, md5, store, extracted, background);
    }
  }

  /** A failure removes the stored file exactly when this request saved it, as its last step. */
  lemma FailureRemovesOnlyNewFile(file: Upload, maxSize: nat, md5: string, store: Storage, extracted: Result<Extraction, UploadError>, background: bool)
    requires file.size <= maxSize
    ensures var r := Respond(file, maxSize, md5, store, extracted, background);
      r.outcome.Err? && !store.uploadExists ==> r.effects[|r.effects| - 1] == RemoveUpload(StoredName(md5, file.filename))
  {
  }

  /** A file stored by an earlier upload is neither saved again nor removed. */
  lemma ExistingFileKept(file: Upload, maxSize: nat, md5: string, store: Storage, extracted: Result<Extraction, UploadError>, background: bool)
    requires store.uploadExists
    ensures var r := Respond(file, maxSize, md5, store, extracted, background);
      var stored := StoredName(md5, file.filename);
      SaveUpload(stored) !in r.effects && RemoveUpload(stored) !in r.effects
  {
    var r := Respond(file, maxSize, md5, store, extracted, background);
    if file.size <= maxSize && !store.cacheExists && extracted.Ok? {
      var x := extracted.value;
      var stored := StoredName(md5, file.filename);
      var ocr := if x.ranPdfOcr then [RunPdfOcr] else [];
      var made := if x.needsNewFile then [GeneratePdf(OcrPdfName(stored), x.text)] else [];
      var queued := if background then [Vectorize(x.text, stored)] else [];
      if IsBlank(x.text) {
        assert r.effects == [] + ocr + [];
      } else {
        assert r.effects == [] + ocr + made + [WriteCache(CacheName(stored), x.text)] + queued;
      }
    }
  }

  /** A success removes nothing, and an extraction that succeeds is written to the cache. */
  lemma SuccessIsCached(file: Upload, maxSize: nat, md5: string, store: Storage, extracted: Result<Extraction, UploadError>, background: bool)
    ensures var r := Respond(file, maxSize, md5, store, extracted, background);
      && (r.outcome.Ok? ==> forall e :: e in r.effects ==> !e.RemoveUpload?)
      && (r.outcome.Ok? && !(store.uploadExists && store.cacheExists) ==>
            WriteCache(CacheName(StoredName(md5, file.filename)), r.outcome.value.0) in r.effects)
  {
    var r := Respond(file, maxSize, md5, store, extracted, background);
    if store.uploadExists {
      ExistingFileKept(file, maxSize, md5, store, extracted, background);
    } else if r.outcome.Ok? {
      var x := extracted.value;
      var stored := StoredName(md5, file.filename);
      var ocr := if x.ranPdfOcr then [RunPdfOcr] else [];
      var made := if x.needsNewFile then [GeneratePdf(OcrPdfName(stored), x.text)] else [];
      var queued := if background then [Vectorize(x.text, stored)] else [];
      assert r.effects == [SaveUpload(stored)] + ocr + made + [WriteCache(CacheName(stored), x.text)] + queued;
    }
  }

  /**
   * What a successful extraction answers: text that is not blank, and the URL of the stored
   * file or, when the text came from OCR, of the PDF generated from it.
   */
  lemma UploadAnswer(file: Upload, maxSize: nat, md5: string, store: Storage, extracted: Result<Extraction, UploadError>, background: bool)
    requires !(store.uploadExists && store.cacheExists)
    ensures var r := Respond(file, maxSize, md5, store, extracted, background);
      var stored := StoredName(md5, file.filename);
      r.outcome.Ok? ==>
        && !IsBlank(r.outcome.value.0)
        && (r.outcome.value.1 == UploadsUrl + stored
            || (r.outcome.value.1 == UploadsUrl + OcrPdfName(stored)
                && GeneratePdf(OcrPdfName(stored), r.outcome.value.0) in r.effects))
        && (Vectorize(r.outcome.value.0, stored) in r.effects <==> background)
  {
  }

  /**
   * A PDF is sent to OCR exactly when its text layer has at most 100 characters besides
   * whitespace, and the OCR text replaces the text layer only when it is longer.
   */
  lemma PdfOcrFallback(file: Upload, maxSize: nat, md5: string, store: Storage, ex: Extractors, background: bool)
    requires file.size <= maxSize && !(store.uploadExists && store.cacheExists)
    requires Kind(file.filename, file.contentType) == Pdf && ex.pdfText.Ok?
    ensures var r := ProcessUpload(file, maxSize, md5, store, ex, background);
      var layer := ex.pdfText.value;
      var chosen := if |Squeezed(layer)| <= OcrThreshold && |ex.pdfOcr| > |layer| then ex.pdfOcr else layer;
      && (RunPdfOcr in r.effects <==> |Squeezed(layer)| <= OcrThreshold)
      && (r.outcome.Ok? <==> !IsBlank(chosen))
      && (r.outcome.Ok? ==> r.outcome.value.0 == chosen)
      && (r.outcome.Err? ==> r.outcome.error == NoText)
  {
  }

  /** An old Word file is always refused, and so is a file of no recognised kind. */
  lemma UnsupportedKindsRefused(file: Upload, maxSize: nat, md5: string, store: Storage, ex: Extractors, background: bool)
    requires file.size <= maxSize && !(store.uploadExists && store.cacheExists)
    ensures var r := ProcessUpload(file, maxSize, md5, store, ex, background);
      && (Kind(file.filename, file.contentType) == Doc ==> r.outcome == Err(OldWordFormat))
      && (Kind(file.filename, file.contentType) == Unsupported ==> r.outcome == Err(UnsupportedType(file.contentType)))
  {
  }

  /**
   * A PDF or Word file whose text extractor fails is refused with the extractor's message,
   * before any OCR; the handler removes the file only if this request saved it.
   */
  lemma ExtractorFailureReported(file: Upload, maxSize: nat, md5: string, store: Storage, ex: Extractors, background: bool)
    requires file.size <= maxSize && !(store.uploadExists && store.cacheExists)
    requires var kind := Kind(file.filename, file.contentType);
      (kind == Pdf && ex.pdfText.Err?) || (kind == Docx && ex.wordText.Err?)
    ensures var r := ProcessUpload(file, maxSize, md5, store, ex, background);
      var stored := StoredName(md5, file.filename);
      && r.outcome == Err(ExtractorFailed(if Kind(file.filename, file.contentType) == Pdf then ex.pdfText.error else ex.wordText.error))
      && r.effects == (if store.uploadExists then [] else [SaveUpload(stored), RemoveUpload(stored)])
  {
  }

  /**
   * A Word file without text is read through the OCR of its images: it is refused when it has
   * no images or none of them gave text, and otherwise answered with one section per image
   * that gave text.
   */
  lemma WordImageFallback(file: Upload, maxSize: nat, md5: string, store: Storage, ex: Extractors, background: bool)
    requires file.size <= maxSize && !(store.uploadExists && store.cacheExists)
    requires Kind(file.filename, file.contentType) == Docx && ex.wordText.Ok? && IsBlank(ex.wordText.value)
    ensures var r := ProcessUpload(file, maxSize, md5, store, ex, background);
      && (ex.wordImageOcr == [] ==> r.outcome == Err(WordWithoutText))
      && ((ex.wordImageOcr != [] && forall k :: 0 <= k < |ex.wordImageOcr| ==> ex.wordImageOcr[k] == [])
          ==> r.outcome == Err(WordOnlyUnreadableImages))
      && (r.outcome.Ok? ==> r.outcome.value.0 == Join(ImageSections(ex.wordImageOcr), "\n\n"))
  {
    WordExtraction(file.contentType, ex);
  }

  /** The Docx branch of the extraction when the text layer is blank. */
  lemma WordExtraction(contentType: Option<string>, ex: Extractors)
    requires ex.wordText.Ok? && IsBlank(ex.wordText.value)
    ensures var x := Extract(Docx, contentType, ex);
      && (ex.wordImageOcr == [] ==> x == Err(WordWithoutText))
      && ((ex.wordImageOcr != [] && forall k :: 0 <= k < |ex.wordImageOcr| ==> ex.wordImageOcr[k] == [])
          ==> x == Err(WordOnlyUnreadableImages))
      && (x.Ok? ==> x.value.text == Join(ImageSections(ex.wordImageOcr), "\n\n") && !IsBlank(x.value.text))
  {
    ImageSectionsEmpty(ex.wordImageOcr);
    var sections := ImageSections(ex.wordImageOcr);
    if sections != [] {
      JoinStartsWith(sections, "\n\n");
      ImageSectionsLabelled(ex.wordImageOcr);
      assert Join(sections, "\n\n")[0] == '-';
    }
  }

  /** The stored file and its cache once the effects have happened, as far as they concern the file stored as `stored`. */
  function Apply(store: Storage, effects: seq<Effect>, stored: string): Storage
  {
    if effects == [] then store
    else
      var before := Apply(store, effects[..|effects| - 1], stored);
      match effects[|effects| - 1]
      case SaveUpload(n) => if n == stored then before.(uploadExists := true) else before
      case WriteCache(n, t) => if n == CacheName(stored) then before.(cacheExists := true, cachedText := t) else before
      case RemoveUpload(n) => if n == stored then before.(uploadExists := false) else before
      case _ => before
  }

  lemma {:induction false} ApplyAppend(store: Storage, a: seq<Effect>, b: seq<Effect>, stored: string)
    ensures Apply(store, a + b, stored) == Apply(Apply(store, a, stored), b, stored)
    decreases |b|
  {
    if b == [] {
      assert a + b == a;
    } else {
      ApplyAppend(store, a, b[..|b| - 1], stored);
      assert (a + b)[..|a + b| - 1] == a + b[..|b| - 1];
    }
  }

  /**
   * Uploading the same body under the same name again after a success is answered from the
   * cache with the same text, whatever the extractors would say now. The URL is that of the
   * stored file, also when the first answer pointed at the PDF generated from OCR text.
   */
  lemma ReuploadAnswersFromCache(file: Upload, maxSize: nat, md5: string, store: Storage, extracted: Result<Extraction, UploadError>, background: bool,
                                 later: Result<Extraction, UploadError>, laterBackground: bool)
    requires Respond(file, maxSize, md5, store, extracted, background).outcome.Ok?
    ensures var r := Respond(file, maxSize, md5, store, extracted, background);
      var stored := StoredName(md5, file.filename);
      Respond(file, maxSize, md5, Apply(store, r.effects, stored), later, laterBackground)
        == UploadResult(Ok((r.outcome.value.0, UploadsUrl + stored)), [])
  {
    var r := Respond(file, maxSize, md5, store, extracted, background);
    var stored := StoredName(md5, file.filename);
    if !(store.uploadExists && store.cacheExists) {
      SuccessStored(file, maxSize, md5, store, extracted, background);
    } else {
      assert r.effects == [];
    }
    CachedUploadAnswersFromCache(file, maxSize, md5, Apply(store, r.effects, stored), later, laterBackground);
  }

  /** After a success that was not answered from the cache, the file is stored and its text cached. */
  lemma SuccessStored(file: Upload, maxSize: nat, md5: string, store: Storage, extracted: Result<Extraction, UploadError>, background: bool)
    requires Respond(file, maxSize, md5, store, extracted, background).outcome.Ok?
    requires !(store.uploadExists && store.cacheExists)
    ensures var r := Respond(file, maxSize, md5, store, extracted, background);
      Apply(store, r.effects, StoredName(md5, file.filename)) == Storage(true, true, r.outcome.value.0)
  {
    var stored := StoredName(md5, file.filename);
    var x := extracted.value;
    var saved := if store.uploadExists then [] else [SaveUpload(stored)];
    var ocr := if x.ranPdfOcr then [RunPdfOcr] else [];
    var made := if x.needsNewFile then [GeneratePdf(OcrPdfName(stored), x.text)] else [];
    var queued := if background then [Vectorize(x.text, stored)] else [];
    ApplySuccess(store, stored, saved, ocr, made, x.text, queued);
  }

  /** The effects of a success leave the file stored and its text cached. */
  lemma ApplySuccess(store: Storage, stored: string, saved: seq<Effect>, ocr: seq<Effect>, made: seq<Effect>, text: string,
                     queued: seq<Effect>)
    requires saved == (if store.uploadExists then [] else [SaveUpload(stored)])
    requires forall k :: 0 <= k < |ocr| ==> ocr[k].RunPdfOcr?
    requires forall k :: 0 <= k < |made| ==> made[k].GeneratePdf?
    requires forall k :: 0 <= k < |queued| ==> queued[k].Vectorize?
    ensures Apply(store, saved + ocr + made + [WriteCache(CacheName(stored), text)] + queued, stored)
      == Storage(true, true, text)
  {
    var w := [WriteCache(CacheName(stored), text)];
    var before := saved + ocr + made;
    ApplyAppend(store, saved, ocr, stored);
    ApplyNoStorage(Apply(store, saved, stored), ocr, stored);
    ApplyAppend(store, saved + ocr, made, stored);
    ApplyNoStorage(Apply(store, saved + ocr, stored), made, stored);
    ApplyAppend(store, before + w, queued, stored);
    ApplyNoStorage(Apply(store, before + w, stored), queued, stored);
    assert (before + w)[..|before + w| - 1] == before;
  }

  /** OCR runs, generated PDFs and background work touch neither the stored file nor its cache. */
  lemma {:induction false} ApplyNoStorage(store: Storage, effects: seq<Effect>, stored: string)
    requires forall k :: 0 <= k < |effects| ==> effects[k].RunPdfOcr? || effects[k].GeneratePdf? || effects[k].Vectorize?
    ensures Apply(store, effects, stored) == store
  {
    if effects != [] {
      ApplyNoStorage(store, effects[..|effects| - 1], stored);
    }
  }

  /** A failed upload leaves no stored file behind unless one was there before. */
  lemma FailureLeavesNoNewFile(file: Upload, maxSize: nat, md5: string, store: Storage, extracted: Result<Extraction, UploadError>, background: bool)
    requires Respond(file, maxSize, md5, store, extracted, background).outcome.Err?
    ensures var r := Respond(file, maxSize, md5, store, extracted, background);
      Apply(store, r.effects, StoredName(md5, file.filename)).uploadExists == store.uploadExists
  {
    var r := Respond(file, maxSize, md5, store, extracted, background);
    var stored := StoredName(md5, file.filename);
    if file.size <= maxSize && !store.uploadExists {
      var n := |r.effects|;
      assert r.effects[n - 1] == RemoveUpload(stored);
    } else if file.size <= maxSize {
      ApplyNoStorage(store, r.effects, stored);
    }
  }

  const MaxOcrPages := 35
  const OcrBatchSize := 5

  /** What recognition gave for one page: an exception, or a text (possibly empty). */
  datatype PageOcr = OcrFailed | OcrText(text: string)

  /** The section `perform_ocr_on_pdf` writes for page `i` (counted from 1). */
  function PageSection(i: nat, r: PageOcr): string
  {
    match r
    case OcrFailed => "--- 第 " + NatToString(i) + " 页 (OCR 失败) ---"
    case OcrText(t) =>
      if t != [] then "--- 第 " + NatToString(i) + " 页 (OCR) ---\n" + t
      else "--- 第 " + NatToString(i) + " 页 (无内容) ---"
  }

  /** One section per page, numbered from 1. */
  function PageSections(results: seq<PageOcr>): seq<string>
  {
    seq(|results|, k requires 0 <= k < |results| => PageSection(k + 1, results[k]))
  }

  /**
   * What `perform_ocr_on_pdf` returns: `pages` is what recognition gave for each page, or
   * `None` when the document could not be opened or its pages rendered. Only the first 35
   * pages are read.
   */
  function PdfOcrText(pages: Option<seq<PageOcr>>): string
  {
    match pages
    case None => ""
    case Some(ps) => Join(PageSections(ps[..if |ps| < MaxOcrPages then |ps| else MaxOcrPages]), "\n\n")
  }

  /** Lines 609-652: pages are recognised in batches of five, then labelled and joined. */
  method OcrPdf(pages: Option<seq<PageOcr>>) returns (text: string)
    ensures text == PdfOcrText(pages)
  {
    if pages.None? {
      return "";
    }
    var ps := pages.value;
    var n := if |ps| < MaxOcrPages then |ps| else MaxOcrPages;
    var results := RecognizeInBatches(ps[..n]);
    var fullText := LabelPages(results);
    text := Join(fullText, "\n\n");
  }

  /** Lines 620-633: the pages go to recognition five at a time; the results keep the page order. */
  method RecognizeInBatches(tasks: seq<PageOcr>) returns (results: seq<PageOcr>)
    ensures results == tasks
  {
    var n := |tasks|;
    results := [];
    var i := 0;
    while i < n
      invariant results == tasks[..if i < n then i else n]
    {
      var hi := if i + OcrBatchSize < n then i + OcrBatchSize else n;
      results := results + tasks[i..hi];
      assert tasks[..hi] == tasks[..i] + tasks[i..hi];
      i := i + OcrBatchSize;
    }
    assert tasks[..n] == tasks;
  }

  /** Lines 636-649: one labelled section per page, in page order. */
  method LabelPages(results: seq<PageOcr>) returns (fullText: seq<string>)
    ensures fullText == PageSections(results)
  {
    fullText := [];
    var k := 0;
    while k < |results|
      invariant k <= |results| && fullText == PageSections(results)[..k]
    {
      fullText := fullText + [PageSection(k + 1, results[k])];
      k := k + 1;
    }
  }

  /** The section of each page read appears in the text, in page order, at the offset `join` puts it. */
  lemma PdfOcrSectionAt(ps: seq<PageOcr>, k: nat)
    requires k < |ps| && k < MaxOcrPages
    ensures var n := if |ps| < MaxOcrPages then |ps| else MaxOcrPages;
      OccursAt(PdfOcrText(Some(ps)), PageSection(k + 1, ps[k]), JoinOffset(PageSections(ps[..n]), "\n\n", k))
  {
    var n := if |ps| < MaxOcrPages then |ps| else MaxOcrPages;
    var parts := PageSections(ps[..n]);
    assert parts[k] == PageSection(k + 1, ps[k]);
    JoinPartAt(parts, "\n\n", k);
  }

  /** What follows the page label: the outcome and, for a page that gave text, the text. */
  function PageOutcome(r: PageOcr): string
  {
    match r
    case OcrFailed => "OCR 失败) ---"
    case OcrText(t) => if t != [] then "OCR) ---\n" + t else "无内容) ---"
  }

  /** Every section is its page label followed by the outcome. */
  lemma PageSectionParts(i: nat, r: PageOcr)
    ensures PageSection(i, r) == "--- 第 " + (NatToString(i) + (" 页 (" + PageOutcome(r)))
  {
    var head := "--- 第 " + NatToString(i) + " 页 (";
    match r {
      case OcrFailed =>
        assert PageSection(i, r) == head + "OCR 失败) ---";
      case OcrText(t) =>
        if t != [] {
          assert PageSection(i, r) == head + ("OCR) ---\n" + t);
        } else {
          assert PageSection(i, r) == head + "无内容) ---";
        }
    }
  }

  /** Different outcomes are written differently. */
  lemma PageOutcomeInjective(r: PageOcr, q: PageOcr)
    requires PageOutcome(r) == PageOutcome(q)
    ensures r == q
  {
    var o := PageOutcome(r);
    assert o[0] == (if r == OcrText([]) then '无' else 'O');
    assert o[3] == (if r.OcrFailed? then ' ' else ')');
    assert PageOutcome(q)[0] == (if q == OcrText([]) then '无' else 'O');
    assert PageOutcome(q)[3] == (if q.OcrFailed? then ' ' else ')');
    if r.OcrText? && r.text != [] && q.OcrText? && q.text != [] {
      assert r.text == o[9..] == q.text;
    }
  }

  /** A run of digits followed by something that does not start with a digit is read back unambiguously. */
  lemma DigitsThenRest(a: string, x: string, b: string, y: string)
    requires forall k :: 0 <= k < |a| ==> IsDigit(a[k])
    requires forall k :: 0 <= k < |b| ==> IsDigit(b[k])
    requires x != [] && !IsDigit(x[0]) && y != [] && !IsDigit(y[0])
    requires a + x == b + y
    ensures a == b && x == y
  {
    assert a == (a + x)[..|a|] && b == (b + y)[..|b|];
  }

  /** A section tells which page it is and what recognition gave for it. */
  lemma PageSectionInjective(i: nat, r: PageOcr, j: nat, q: PageOcr)
    requires PageSection(i, r) == PageSection(j, q)
    ensures i == j && r == q
  {
    var s := PageSection(i, r);
    var a, b := NatToString(i), NatToString(j);
    var x, y := " 页 (" + PageOutcome(r), " 页 (" + PageOutcome(q);
    PageSectionParts(i, r);
    PageSectionParts(j, q);
    assert a + x == s[6..] == b + y;
    DigitsThenRest(a, x, b, y);
    NatToStringInjective(i, j);
    assert PageOutcome(r) == x[4..] == PageOutcome(q);
    PageOutcomeInjective(r, q);
  }

  /**
   * A PDF without a text layer is accepted as soon as it has a page, and answered with the
   * page sections and the URL of a generated PDF, even when recognition failed on every page:
   * the labels alone are longer than the empty text layer.
   */
  lemma ScannedPdfAlwaysAccepted(file: Upload, maxSize: nat, md5: string, store: Storage, ex: Extractors, background: bool,
                                 ps: seq<PageOcr>)
    requires file.size <= maxSize && !(store.uploadExists && store.cacheExists)
    requires Kind(file.filename, file.contentType) == Pdf
    requires ex.pdfText == Ok([]) && ex.pdfOcr == PdfOcrText(Some(ps)) && ps != []
    ensures ProcessUpload(file, maxSize, md5, store, ex, background).outcome
      == Ok((PdfOcrText(Some(ps)), UploadsUrl + OcrPdfName(StoredName(md5, file.filename))))
  {
    var n := if |ps| < MaxOcrPages then |ps| else MaxOcrPages;
    var sections := PageSections(ps[..n]);
    JoinStartsWith(sections, "\n\n");
    PageSectionParts(1, ps[0]);
    assert PdfOcrText(Some(ps))[0] == sections[0][0] == '-';
  }

  /** The page `fitz` creates by default (A4 in points), and the layout constants of `generate_pdf_from_text`. */
  const PageWidth := 595
  const PageHeight := 842
  const Margin := 50
  const LineHeight := 15
  const FontSize := 10

  /** `int((width - 2 * margin) / (font_size * 0.8))`, which is 61 on the default page. */
  const CharsPerLine := (PageWidth - 2 * Margin) * 10 / (FontSize * 8)

  /** A piece of text drawn at height `y` of page `page` (pages counted from 0). */
  datatype Placed = Placed(page: nat, y: int, chunk: string)

  /** The current page and height, and what has been drawn so far. */
  datatype Layout = Layout(page: nat, y: int, placed: seq<Placed>)

  /** One piece: drawn at the current height, or at the top of a new page when below the bottom margin. */
  function PlaceChunk(st: Layout, chunk: string): Layout
  {
    if st.y > PageHeight - Margin then Layout(st.page + 1, Margin + LineHeight, st.placed + [Placed(st.page + 1, Margin, chunk)])
    else Layout(st.page, st.y + LineHeight, st.placed + [Placed(st.page, st.y, chunk)])
  }

  /** What is left of a line, in pieces of at most `CharsPerLine` characters. */
  function PlaceRest(st: Layout, line: string): Layout
    decreases |line|
  {
    if line == [] then st
    else
      var c := if |line| < CharsPerLine then |line| else CharsPerLine;
      PlaceRest(PlaceChunk(st, line[..c]), line[c..])
  }

  /** A blank line only moves down; any other line is drawn in pieces. */
  function PlaceLine(st: Layout, line: string): Layout
  {
    if IsBlank(line) then st.(y := st.y + LineHeight) else PlaceRest(st, line)
  }

  function LayoutLines(lines: seq<string>): Layout
  {
    if lines == [] then Layout(0, Margin, [])
    else PlaceLine(LayoutLines(lines[..|lines| - 1]), lines[|lines| - 1])
  }

  /** Lines 581-606: what `generate_pdf_from_text` draws, page by page. */
  method LayoutText(text: string) returns (placed: seq<Placed>)
    ensures placed == LayoutLines(Split(text, "\n")).placed
  {
    var lines := Split(text, "\n");
    var page: nat, y := 0, Margin;
    placed := [];
    var i := 0;
    while i < |lines|
      invariant i <= |lines| && Layout(page, y, placed) == LayoutLines(lines[..i])
    {
      var line := lines[i];
      if IsBlank(line) {
        y := y + LineHeight;
      } else {
        ghost var start := Layout(page, y, placed);
        while |line| > 0
          invariant PlaceRest(Layout(page, y, placed), line) == PlaceRest(start, lines[i])
        {
          if y > PageHeight - Margin {
            page := page + 1;
            y := Margin;
          }
          var c := if |line| < CharsPerLine then |line| else CharsPerLine;
          var chunk := line[..c];
          line := line[c..];
          placed := placed + [Placed(page, y, chunk)];
          y := y + LineHeight;
        }
      }
      assert lines[..i + 1][..i] == lines[..i];
      i := i + 1;
    }
    assert lines[..i] == lines;
  }

  function Chunks(placed: seq<Placed>): seq<string>
  {
    seq(|placed|, k requires 0 <= k < |placed| => placed[k].chunk)
  }

  /** The lines `generate_pdf_from_text` draws: those that are not blank. */
  function DrawnLines(lines: seq<string>): (drawn: seq<string>)
    ensures |drawn| <= |lines|
    ensures forall k :: 0 <= k < |drawn| ==> !IsBlank(drawn[k])
    ensures (forall k :: 0 <= k < |lines| ==> !IsBlank(lines[k])) ==> drawn == lines
    ensures (forall k :: 0 <= k < |lines| ==> IsBlank(lines[k])) ==> drawn == []
  {
    if lines == [] then []
    else
      var last := lines[|lines| - 1];
      DrawnLines(lines[..|lines| - 1]) + (if IsBlank(last) then [] else [last])
  }

  /** The lines drawn from `a + b` are those drawn from `a`, then those drawn from `b`: none is moved. */
  lemma {:induction false} DrawnLinesAppend(a: seq<string>, b: seq<string>)
    ensures DrawnLines(a + b) == DrawnLines(a) + DrawnLines(b)
    decreases |b|
  {
    if b == [] {
      assert a + b == a;
    } else {
      var b' := b[..|b| - 1];
      DrawnLinesAppend(a, b');
      assert (a + b)[..|a + b| - 1] == a + b';
      assert (a + b)[|a + b| - 1] == b[|b| - 1];
    }
  }

  /** Every piece drawn holds between one and `CharsPerLine` characters. */
  predicate ChunksFit(placed: seq<Placed>)
  {
    forall k :: 0 <= k < |placed| ==> 1 <= |placed[k].chunk| <= CharsPerLine
  }

  lemma ChunksSnoc(placed: seq<Placed>, p: Placed)
    ensures Chunks(placed + [p]) == Chunks(placed) + [p.chunk]
  {
  }

  /** Drawing one piece adds exactly that piece. */
  lemma PlaceChunkKeeps(st: Layout, chunk: string)
    requires ChunksFit(st.placed) && 1 <= |chunk| <= CharsPerLine
    ensures Concat(Chunks(PlaceChunk(st, chunk).placed)) == Concat(Chunks(st.placed)) + chunk
    ensures ChunksFit(PlaceChunk(st, chunk).placed)
  {
    var next := PlaceChunk(st, chunk);
    var p := next.placed[|st.placed|];
    assert next.placed == st.placed + [p];
    ChunksSnoc(st.placed, p);
    ConcatSnoc(Chunks(st.placed), chunk);
  }

  /** Drawing the rest of a line adds exactly that text, in pieces that fit. */
  lemma {:induction false} PlaceRestKeeps(st: Layout, line: string)
    requires ChunksFit(st.placed)
    ensures Concat(Chunks(PlaceRest(st, line).placed)) == Concat(Chunks(st.placed)) + line
    ensures ChunksFit(PlaceRest(st, line).placed)
    decreases |line|
  {
    var before := Concat(Chunks(st.placed));
    if line == [] {
      assert before + line == before;
    } else {
      var c := if |line| < CharsPerLine then |line| else CharsPerLine;
      var next := PlaceChunk(st, line[..c]);
      PlaceChunkKeeps(st, line[..c]);
      PlaceRestKeeps(next, line[c..]);
      assert PlaceRest(st, line) == PlaceRest(next, line[c..]);
      SplitAppend(before, line, c);
    }
  }

  lemma SplitAppend(before: string, line: string, c: nat)
    requires c <= |line|
    ensures (before + line[..c]) + line[c..] == before + line
  {
    assert line[..c] + line[c..] == line;
  }

  /**
   * Nothing of the text is lost or reordered: the pieces drawn, put together, are the lines
   * that are not blank, one after the other, and each piece fits on a line of the page.
   */
  lemma {:induction false} LayoutKeepsText(lines: seq<string>)
    ensures Concat(Chunks(LayoutLines(lines).placed)) == Concat(DrawnLines(lines))
    ensures ChunksFit(LayoutLines(lines).placed)
  {
    if lines != [] {
      var init := lines[..|lines| - 1];
      var last := lines[|lines| - 1];
      LayoutKeepsText(init);
      if IsBlank(last) {
        assert LayoutLines(lines).placed == LayoutLines(init).placed;
        assert DrawnLines(lines) == DrawnLines(init) + [];
        assert DrawnLines(init) + [] == DrawnLines(init);
      } else {
        PlaceRestKeeps(LayoutLines(init), last);
        ConcatSnoc(DrawnLines(init), last);
      }
    }
  }

  /** The next piece is lower on the same page, or at the top of the next page. */
  predicate Follows(a: Placed, b: Placed)
  {
    (b.page == a.page && b.y >= a.y + LineHeight) || (b.page == a.page + 1 && b.y == Margin)
  }

  /**
   * Pieces are drawn between the top and the bottom margin, in reading order across pages;
   * the current height is below the last piece, on its page.
   */
  predicate Paginated(st: Layout)
  {
    && st.y >= Margin
    && (forall k :: 0 <= k < |st.placed| ==> Margin <= st.placed[k].y <= PageHeight - Margin)
    && (forall k :: 1 <= k < |st.placed| ==> Follows(st.placed[k - 1], st.placed[k]))
    && (st.placed != [] ==>
          st.placed[|st.placed| - 1].page == st.page && st.y >= st.placed[|st.placed| - 1].y + LineHeight)
  }

  lemma PlaceChunkPaginated(st: Layout, chunk: string)
    requires Paginated(st)
    ensures Paginated(PlaceChunk(st, chunk))
  {
    var next := PlaceChunk(st, chunk);
    assert next.placed[..|st.placed|] == st.placed;
  }

  lemma {:induction false} PlaceRestPaginated(st: Layout, line: string)
    requires Paginated(st)
    ensures Paginated(PlaceRest(st, line))
    decreases |line|
  {
    if line != [] {
      var c := if |line| < CharsPerLine then |line| else CharsPerLine;
      PlaceChunkPaginated(st, line[..c]);
      PlaceRestPaginated(PlaceChunk(st, line[..c]), line[c..]);
    }
  }

  /** Every layout is paginated: no piece falls below the bottom margin, and the pages are read in order. */
  lemma {:induction false} LayoutPaginated(lines: seq<string>)
    ensures Paginated(LayoutLines(lines))
  {
    if lines != [] {
      var init := lines[..|lines| - 1];
      LayoutPaginated(init);
      if !IsBlank(lines[|lines| - 1]) {
        PlaceRestPaginated(LayoutLines(init), lines[|lines| - 1]);
      }
    }
  }

  /** A relationship of a Word document: its target and, when it can be read, the part's bytes and content type. */
  datatype Rel = Rel(targetRef: string, part: Option<(seq<bv8>, string)>)

  /** An image found in a Word document: its bytes, its extension and its number. */
  datatype DocImage = DocImage(data: seq<bv8>, ext: string, index: nat)

  /** The extension of an image part: `png`, `gif` or `bmp` when the content type names it (in that order), else `jpg`. */
  function ImageExt(contentType: string): (ext: string)
    ensures ext == "png" || ext == "gif" || ext == "bmp" || ext == "jpg"
    ensures ext != "jpg" ==> Contains(contentType, ext)
  {
    if Contains(contentType, "png") then "png"
    else if Contains(contentType, "gif") then "gif"
    else if Contains(contentType, "bmp") then "bmp"
    else "jpg"
  }

  /**
   * The images `extract_images_from_docx` returns: one for every relationship whose target
   * mentions `image` and whose part can be read, numbered from 1 without gaps (a part that
   * cannot be read is skipped and takes no number).
   */
  function DocxImages(rels: seq<Rel>): (images: seq<DocImage>)
    ensures |images| <= |rels|
    ensures forall k :: 0 <= k < |images| ==> images[k].index == k + 1
  {
    if rels == [] then []
    else
      var before := DocxImages(rels[..|rels| - 1]);
      var r := rels[|rels| - 1];
      if Contains(r.targetRef, "image") && r.part.Some? then
        before + [DocImage(r.part.value.0, ImageExt(r.part.value.1), |before| + 1)]
      else before
  }

  /** Lines 82-105: `rels` is `None` when the document cannot be opened. */
  method ExtractImages(rels: Option<seq<Rel>>) returns (images: seq<DocImage>)
    ensures images == (if rels.None? then [] else DocxImages(rels.value))
  {
    images := [];
    if rels.None? {
      return;
    }
    var rs := rels.value;
    var imgIndex := 0;
    var i := 0;
    while i < |rs|
      invariant i <= |rs| && images == DocxImages(rs[..i]) && imgIndex == |images|
    {
      var r := rs[i];
      assert rs[..i + 1][..i] == rs[..i];
      if Contains(r.targetRef, "image") {
        match r.part {
          case Some(part) =>
            var ext := "jpg";
            if Contains(part.1, "png") {
              ext := "png";
            } else if Contains(part.1, "gif") {
              ext := "gif";
            } else if Contains(part.1, "bmp") {
              ext := "bmp";
            }
            imgIndex := imgIndex + 1;
            images := images + [DocImage(part.0, ext, imgIndex)];
          case None =>
        }
      }
      i := i + 1;
    }
    assert rs[..i] == rs;
  }

  /** When every relationship is a readable image, each one is returned, in order, numbered by its position. */
  lemma {:induction false} DocxImagesAllReadable(rels: seq<Rel>)
    requires forall k :: 0 <= k < |rels| ==> Contains(rels[k].targetRef, "image") && rels[k].part.Some?
    ensures |DocxImages(rels)| == |rels|
    ensures forall k :: 0 <= k < |rels| ==> DocxImages(rels)[k].data == rels[k].part.value.0
  {
    if rels != [] {
      var init := rels[..|rels| - 1];
      DocxImagesAllReadable(init);
      assert forall k :: 0 <= k < |init| ==> DocxImages(rels)[k] == DocxImages(init)[k];
    }
  }

  /** A document without image relationships has no images. */
  lemma {:induction false} DocxImagesNone(rels: seq<Rel>)
    requires forall k :: 0 <= k < |rels| ==> !Contains(rels[k].targetRef, "image")
    ensures DocxImages(rels) == []
  {
    if rels != [] {
      DocxImagesNone(rels[..|rels| - 1]);
    }
  }

  /**
   * Lines 108-123: `raises(k)` says whether deletion attempt `k` (from 0) raised. The answer
   * is `True` at the first attempt that does not raise, `False` when the last allowed
   * attempt raises, and `True` without any attempt when no attempt is allowed.
   */
  method SafeCleanup(raises: nat -> bool, maxRetries: nat) returns (ok: bool, attempts: nat)
    ensures maxRetries == 0 ==> ok && attempts == 0
    ensures maxRetries > 0 ==> 1 <= attempts <= maxRetries
    ensures forall k :: 0 <= k < attempts - 1 ==> raises(k)
    ensures maxRetries > 0 ==> (ok <==> !raises(attempts - 1))
    ensures !ok ==> attempts == maxRetries
  {
    attempts := 0;
    var attempt := 0;
    while attempt < maxRetries
      invariant attempt <= maxRetries && attempts == attempt
      invariant maxRetries > 0 ==> attempt < maxRetries
      invariant forall k :: 0 <= k < attempt ==> raises(k)
    {
      attempts := attempts + 1;
      if !raises(attempt) {
        return true, attempts;
      }
      if attempt == maxRetries - 1 {
        return false, attempts;
      }
      attempt := attempt + 1;
    }
    return true, attempts;
  }
  /** What `_safe_file_cleanup` ends with: its answer, or the exception that escapes it. */
  datatype Cleanup = Cleaned(ok: bool) | CleanupRaised(message: string)

  /** The `RuntimeError` that `asyncio.run` raises when an event loop is already running in the thread. */
  const AsyncioRunInLoop := "asyncio.run() cannot be called from a running event loop"

  /**
   * Lines 108-123 as they run at their only call site (line 577, inside the coroutine
   * `process_uploaded_file`): the pause before a retry is `asyncio.run(...)`, which raises
   * inside the running event loop. So a failed deletion that is not the last allowed one
   * ends the cleanup with that `RuntimeError` after one attempt, and no retry is made.
   */
  method SafeCleanupInEventLoop(raises: nat -> bool, maxRetries: nat) returns (r: Cleanup, attempts: nat)
    ensures maxRetries == 0 ==> r == Cleaned(true) && attempts == 0
    ensures maxRetries > 0 ==> attempts == 1
    ensures maxRetries > 0 && !raises(0) ==> r == Cleaned(true)
    ensures maxRetries == 1 && raises(0) ==> r == Cleaned(false)
    ensures maxRetries >= 2 && raises(0) ==> r == CleanupRaised(AsyncioRunInLoop)
  {
    // The retry loop never reaches its second pass here, so only the first attempt is written out.
    if maxRetries == 0 {
      return Cleaned(true), 0;
    }
    attempts := 1;
    if !raises(0) {
      r := Cleaned(true);
    } else if maxRetries == 1 {
      r := Cleaned(false);
    } else {
      r := CleanupRaised(AsyncioRunInLoop);
    }
  }
}
