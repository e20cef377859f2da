/** How a fetched file is shown, chosen from its content type. The same
    four-way test appears twice in the content script: once for the preview
    modal (`loadPreviewContentFromBlob`) and once for the page written into
    a new tab (`generateFileContent`). */
module ContentTypes {
  import opened Strings

  /** The content-type families the script tells apart. */
  datatype Kind = Image | Pdf | Text | Unsupported

  const ImagePrefix := "image/"
  const PdfType := "application/pdf"
  const TextPrefix := "text/"

  /** The single classification both dispatchers follow: an `image/`
      prefix, then the exact type `application/pdf`, then a `text/`
      prefix. The three tests never overlap, so each family is chosen
      exactly when its own test holds. */
  function Classify(contentType: string): (k: Kind)
    ensures k == Image <==> StartsWith(contentType, ImagePrefix)
    ensures k == Pdf <==> contentType == PdfType
    ensures k == Text <==> StartsWith(contentType, TextPrefix)
    ensures k == Unsupported <==>
      !StartsWith(contentType, ImagePrefix) && contentType != PdfType && !StartsWith(contentType, TextPrefix)
  {
    PrefixesDisjoint(contentType);
    if StartsWith(contentType, ImagePrefix) then Image
    else if contentType == PdfType then Pdf
    else if StartsWith(contentType, TextPrefix) then Text
    else Unsupported
  }

  /** No content type passes two of the three tests. */
  lemma PrefixesDisjoint(contentType: string)
    ensures !(StartsWith(contentType, ImagePrefix) && StartsWith(contentType, TextPrefix))
    ensures !StartsWith(PdfType, ImagePrefix) && !StartsWith(PdfType, TextPrefix)
  {
    assert StartsWith(contentType, ImagePrefix) ==> contentType[0] == ImagePrefix[0] == 'i';
    assert StartsWith(contentType, TextPrefix) ==> contentType[0] == TextPrefix[0] == 't';
    assert PdfType[0] == 'a';
  }

  /** What the preview modal shows once the file has been fetched. */
  datatype ModalContent =
    | ModalImage(src: string, alt: string)      // loading text hidden when the image loads
    | ModalPdfFrame(src: string)                // 600px frame, loading text hidden at once
    | ModalTextFrame(src: string)               // 400px bordered frame, loading text hidden at once
    | ModalNotAvailable(message: string)        // loading text replaced by the message

  /** The family a modal rendering belongs to. */
  function ModalKind(m: ModalContent): Kind {
    match m
    case ModalImage(_, _) => Image
    case ModalPdfFrame(_) => Pdf
    case ModalTextFrame(_) => Text
    case ModalNotAvailable(_) => Unsupported
  }

  /** The branch taken by `loadPreviewContentFromBlob`. */
  function PreviewContent(blobUrl: string, contentType: string, title: string): (m: ModalContent)
    ensures ModalKind(m) == Classify(contentType)
    ensures m.ModalImage? ==> m.src == blobUrl && m.alt == title
    ensures m.ModalPdfFrame? || m.ModalTextFrame? ==> m.src == blobUrl
  {
    if StartsWith(contentType, ImagePrefix) then ModalImage(blobUrl, title)
    else if contentType == PdfType then ModalPdfFrame(blobUrl)
    else if StartsWith(contentType, TextPrefix) then ModalTextFrame(blobUrl)
    else ModalNotAvailable("Preview not available for " + contentType + ". Use \"Open in New Tab\" to view.")
  }

  /** What the page written into a new tab embeds. `title` and
      `contentType` are stored unescaped; the markup is not modelled. */
  datatype TabContent =
    | TabImage(src: string, alt: string)
    | TabPdfFrame(src: string)
    | TabTextFrame(src: string)
    | TabDownloadOnly(contentType: string, href: string, fileName: string)

  /** The family a new-tab rendering belongs to. */
  function TabKind(t: TabContent): Kind {
    match t
    case TabImage(_, _) => Image
    case TabPdfFrame(_) => Pdf
    case TabTextFrame(_) => Text
    case TabDownloadOnly(_, _, _) => Unsupported
  }

  /** The branch taken by `generateFileContent`. An unsupported type
      still links the fetched bytes for download under the title. */
  function GenerateFileContent(blobUrl: string, contentType: string, title: string): (t: TabContent)
    ensures TabKind(t) == Classify(contentType)
    ensures t.TabImage? ==> t.src == blobUrl && t.alt == title
    ensures t.TabPdfFrame? || t.TabTextFrame? ==> t.src == blobUrl
    ensures t.TabDownloadOnly? ==> t == TabDownloadOnly(contentType, blobUrl, title)
  {
    if StartsWith(contentType, ImagePrefix) then TabImage(blobUrl, title)
    else if contentType == PdfType then TabPdfFrame(blobUrl)
    else if StartsWith(contentType, TextPrefix) then TabTextFrame(blobUrl)
    else TabDownloadOnly(contentType, blobUrl, title)
  }

  /** The modal and the new tab classify every content type alike. */
  lemma DispatchersAgree(blobUrl: string, contentType: string, title: string)
    ensures ModalKind(PreviewContent(blobUrl, contentType, title))
         == TabKind(GenerateFileContent(blobUrl, contentType, title))
  {
  }

  /** The exact-match test for PDF rejects a PDF type with parameters. */
  lemma PdfWithParametersUnsupported()
    ensures Classify("application/pdf; charset=binary") == Unsupported
  {
    assert "application/pdf; charset=binary"[..6] == "applic";
    assert "application/pdf; charset=binary"[..5] == "appli";
  }

  /** An image is shown inline from the fetched bytes; JSON falls back to
      the explicit "not available" message. */
  lemma PreviewExamples(blobUrl: string, title: string)
    ensures PreviewContent(blobUrl, "image/png", title) == ModalImage(blobUrl, title)
    ensures PreviewContent(blobUrl, "application/json", title).ModalNotAvailable?
    ensures PreviewContent(blobUrl, "text/plain", title) == ModalTextFrame(blobUrl)
  {
    assert "image/png"[..6] == "image/";
    assert "application/json"[..6] == "applic";
    assert "application/json"[..5] == "appli";
    assert "text/plain"[..6] == "text/p";
    assert "text/plain"[..5] == "text/";
  }
}
