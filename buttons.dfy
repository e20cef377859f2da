/** The row of action buttons appended to an enhanced attachment
    (`createButtonContainer`) and the file-type lists it consults. */
module Buttons {
  import opened Strings

  /** A button of the row, bound to the attachment's URL and title; its
      click handler stops the event and runs the named action. */
  datatype Button =
    | Preview(url: string, title: string)   // opens the preview modal
    | Open(url: string, title: string)      // opens the file in a new tab
    | Download(url: string, title: string)  // downloads the file

  /** `CONFIG.fileTypes.images`. */
  const ImageTypes: seq<string> := ["jpg", "jpeg", "png", "gif", "webp", "svg"]

  /** `CONFIG.fileTypes.previewable`. */
  const PreviewableTypes: seq<string> := ["jpg", "jpeg", "png", "gif", "webp", "svg", "pdf", "txt"]

  /** `CONFIG.fileTypes.previewable.includes(fileType)`. */
  predicate IsPreviewable(fileType: string) {
    fileType in PreviewableTypes
  }

  /** The previewable list is the image list plus PDF and plain text. */
  lemma PreviewableIsImagesPdfText(fileType: string)
    ensures IsPreviewable(fileType) <==> fileType in ImageTypes || fileType == "pdf" || fileType == "txt"
  {
  }

  /** The file type read from the tab: its text trimmed and lower-cased. */
  function FileTypeOf(tabText: string): (fileType: string)
    ensures |fileType| <= |tabText|
    ensures forall k :: 0 <= k < |fileType| ==> !('A' <= fileType[k] <= 'Z')
    ensures |fileType| > 0 ==> !IsTrimmable(fileType[0]) && !IsTrimmable(fileType[|fileType| - 1])
  {
    Lower(Trim(tabText))
  }

  /** Reading a file type that is already normalised changes nothing. */
  lemma {:induction false} FileTypeOfIdempotent(tabText: string)
    ensures FileTypeOf(FileTypeOf(tabText)) == FileTypeOf(tabText)
  {
    var fileType := FileTypeOf(tabText);
    TrimKeepsTrimmed(fileType);
    LowerKeepsLowerText(fileType);
  }

  /** `createButtonContainer(url, title, fileType)`: a Preview button only
      for a previewable type, then Open and Download, always, in that order. */
  function CreateButtonRow(url: string, title: string, fileType: string): (row: seq<Button>)
    ensures Preview(url, title) in row <==> IsPreviewable(fileType)
    ensures |row| == if IsPreviewable(fileType) then 3 else 2
    ensures row[|row| - 2..] == [Open(url, title), Download(url, title)]
    ensures forall b :: b in row ==> b.url == url && b.title == title
    ensures forall k :: 0 < k < |row| ==> !row[k].Preview?
  {
    var always := [Open(url, title), Download(url, title)];
    assert Preview(url, title) !in always;
    if IsPreviewable(fileType) then [Preview(url, title)] + always else always
  }

  /** Case and surrounding whitespace of the tab text do not matter: the
      row offers Preview exactly when the normalised text is listed. */
  lemma PreviewFollowsTabText(url: string, title: string, tabText: string)
    ensures Preview(url, title) in CreateButtonRow(url, title, FileTypeOf(tabText))
        <==> Lower(Trim(tabText)) in PreviewableTypes
  {
  }

  /** The tab text " PDF\n" reads as the file type "pdf". */
  lemma {:induction false} PaddedUpperCasePdfFileType()
    ensures FileTypeOf(" PDF\n") == "pdf"
  {
    TrimPaddedPdf();
    LowerPdf();
  }

  /** Lower-casing "PDF" gives "pdf". */
  lemma {:induction false} LowerPdf()
    ensures Lower("PDF") == "pdf"
  {
    var lowered := Lower("PDF");
    assert lowered[0] == 'p' && lowered[1] == 'd' && lowered[2] == 'f';
  }

  /** Trimming " PDF\n" gives "PDF". */
  lemma {:induction false} TrimPaddedPdf()
    ensures Trim(" PDF\n") == "PDF"
  {
    PaddedPdfLeadingEnd();
    PaddedPdfTrailingStart();
    assert " PDF\n"[1..4] == "PDF";
  }

  /** The kept part of " PDF\n" starts after the one leading space. */
  lemma {:induction false} PaddedPdfLeadingEnd()
    ensures LeadingEnd(" PDF\n", 0) == 1
  {
    assert IsTrimmable(" PDF\n"[0]) && !IsTrimmable(" PDF\n"[1]);
  }

  /** The kept part of " PDF\n" ends before the trailing newline. */
  lemma {:induction false} PaddedPdfTrailingStart()
    ensures TrailingStart(" PDF\n", 1, 5) == 4
  {
    assert IsTrimmable(" PDF\n"[4]) && !IsTrimmable(" PDF\n"[3]);
  }

  /** A tab reading " PDF\n" gets a Preview button. */
  lemma PaddedUpperCasePdfIsPreviewable(url: string, title: string)
    ensures |CreateButtonRow(url, title, FileTypeOf(" PDF\n"))| == 3
  {
    PaddedUpperCasePdfFileType();
    PdfIsPreviewable();
  }

  /** "pdf" is on the previewable list. */
  lemma PdfIsPreviewable()
    ensures IsPreviewable("pdf")
  {
    assert PreviewableTypes[6] == "pdf";
  }

  /** A tab reading "docx" gets only Open and Download. */
  lemma DocxIsNotPreviewable(url: string, title: string)
    ensures CreateButtonRow(url, title, FileTypeOf("docx")) == [Open(url, title), Download(url, title)]
  {
    DocxFileType();
    DocxNotListed();
    var row := CreateButtonRow(url, title, "docx");
    assert row == row[|row| - 2..];
  }

  /** "docx" is not on the previewable list. */
  lemma DocxNotListed()
    ensures !IsPreviewable("docx")
  {
    assert forall k :: 0 <= k < |PreviewableTypes| ==> PreviewableTypes[k][0] != 'd';
  }

  /** The tab text "docx" reads as the file type "docx". */
  lemma {:induction false} DocxFileType()
    ensures FileTypeOf("docx") == "docx"
  {
    assert !IsTrimmable("docx"[0]) && !IsTrimmable("docx"[3]);
    TrimKeepsTrimmed("docx");
    LowerKeepsLowerText("docx");
  }
}
