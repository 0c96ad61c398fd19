/** Creative text extraction (`extract_text`, `_extract_docx_text`,
    `_extract_pdf_text`). The MIME guess, the UTF-8 decoder and the two
    optional document readers are parameters; a reader that is not
    installed is `None`. */
module Extraction {
  import opened Wrappers
  import opened Text

  newtype byte = x: int | 0 <= x < 256

  /** An uploaded file: its name as given and its content. */
  datatype Upload = Upload(name: string, content: seq<byte>)

  /** The library behaviour extraction depends on. */
  datatype Readers = Readers(
    guessMime: string -> Option<string>,              // mimetypes.guess_type(name)[0]
    decodeUtf8: seq<byte> -> string,                  // bytes.decode("utf-8", errors="ignore")
    docx: Option<seq<byte> -> seq<string>>,           // python-docx: the text of each paragraph
    pdf: Option<seq<byte> -> seq<Option<string>>>)    // PyPDF2: extract_text() of each page

  const DocxMissing: string := "[DOC/DOCX uploaded, but python-docx not installed.]"
  const PdfMissing: string := "[PDF uploaded, but PyPDF2 not installed.]"
  const UnsupportedMessage: string := "[Unsupported file format. Please upload txt, html, md, doc, docx, or pdf.]"

  /** Index just after the last '/' of `p`, or 0 when `p` has none. */
  function AfterLastSlash(p: string): (e: nat)
    ensures e <= |p|
    ensures e > 0 ==> p[e - 1] == '/'
    ensures forall k :: e <= k < |p| ==> p[k] != '/'
    decreases |p|
  {
    if p == [] then 0
    else if p[|p| - 1] == '/' then |p|
    else AfterLastSlash(p[..|p| - 1])
  }

  /** `Path(p).name` for a POSIX path: the last component, skipping empty
      and "." components, or "" when no component is left. */
  function PathName(p: string): (r: string)
    ensures forall k :: 0 <= k < |r| ==> r[k] != '/'
    decreases |p|
  {
    var e := AfterLastSlash(p);
    var last := p[e..];
    if last != "" && last != "." then last
    else if e == 0 then ""
    else PathName(p[..e - 1])
  }

  /** The directory part of a path does not matter to its name. */
  lemma PathNameOfJoin(dir: string, base: string)
    requires base != "" && base != "."
    requires forall k :: 0 <= k < |base| ==> base[k] != '/'
    ensures PathName(dir + "/" + base) == base
  {
    var front := dir + "/";
    var p := front + base;
    var e := AfterLastSlash(p);
    assert p[|dir|] == '/';
    assert |front| <= e;
    assert e <= |front|;
    assert p[|front|..] == base;
  }

  /** Lower-casing a path commutes with taking its name. */
  lemma {:induction false} PathNameOfLower(p: string)
    ensures PathName(Lower(p)) == Lower(PathName(p))
    decreases |p|
  {
    var q := Lower(p);
    var e := AfterLastSlash(p);
    var e' := AfterLastSlash(q);
    assert forall k :: 0 <= k < |p| ==> (q[k] == '/' <==> p[k] == '/');
    assert e == e';
    var last := p[e..];
    assert q[e..] == Lower(last);
    assert Lower(last) == "." <==> last == ".";
    if (last == "" || last == ".") && e > 0 {
      assert q[..e - 1] == Lower(p[..e - 1]);
      PathNameOfLower(p[..e - 1]);
    }
  }

  /** The four ways `extract_text` can go. */
  datatype Format = PlainText | WordDocument | PdfDocument | UnsupportedFormat

  /** `mime and mime.startswith("text")`. */
  predicate IsTextMime(mime: Option<string>) {
    mime.Some? && StartsWith(mime.value, "text")
  }

  predicate IsWordName(fname: string) {
    EndsWith(fname, ".doc") || EndsWith(fname, ".docx")
  }

  predicate IsPdfName(fname: string) {
    EndsWith(fname, ".pdf")
  }

  /** The decision of `extract_text`: a text MIME type first, then the
      `.doc`/`.docx` endings, then `.pdf`, else unsupported. A name never has
      both a Word and a PDF ending, so the order of those two tests is
      immaterial; only the MIME test takes precedence. */
  function RouteOf(fname: string, mime: Option<string>): (f: Format)
    ensures f == PlainText <==> IsTextMime(mime)
    ensures f == WordDocument <==> !IsTextMime(mime) && IsWordName(fname)
    ensures f == PdfDocument <==> !IsTextMime(mime) && IsPdfName(fname)
    ensures f == UnsupportedFormat <==> !IsTextMime(mime) && !IsWordName(fname) && !IsPdfName(fname)
  {
    if IsTextMime(mime) then PlainText
    else if IsWordName(fname) then
      assert fname[|fname| - 1] != 'f';
      WordDocument
    else if IsPdfName(fname) then PdfDocument
    else UnsupportedFormat
  }

  /** `_extract_docx_text`: the paragraphs joined by newlines, or the
      placeholder when python-docx is not installed. */
  function DocxText(readers: Readers, content: seq<byte>): (r: string)
    ensures readers.docx.None? ==> r == DocxMissing
    ensures readers.docx.Some? ==> r == Join("\n", readers.docx.value(content))
  {
    match readers.docx
    case None => DocxMissing
    case Some(read) => Join("\n", read(content))
  }

  /** `_extract_pdf_text`: the pages' text joined by newlines, a page without
      text counting as "", or the placeholder when PyPDF2 is not installed. */
  function PdfText(readers: Readers, content: seq<byte>): (r: string)
    ensures readers.pdf.None? ==> r == PdfMissing
  {
    match readers.pdf
    case None => PdfMissing
    case Some(read) =>
      var pages := read(content);
      Join("\n", seq(|pages|, i requires 0 <= i < |pages| => pages[i].GetOr("")))
  }

  /** The lower-cased base name `extract_text` decides on. */
  function FileKey(name: string): string {
    Lower(PathName(name))
  }

  /** `extract_text(file_obj)`: always a string, chosen by RouteOf on the
      lower-cased base name and its guessed MIME type. */
  function ExtractText(readers: Readers, upload: Upload): (r: string)
    ensures var fname := FileKey(upload.name);
            match RouteOf(fname, readers.guessMime(fname))
            case PlainText => r == readers.decodeUtf8(upload.content)
            case WordDocument => r == DocxText(readers, upload.content)
            case PdfDocument => r == PdfText(readers, upload.content)
            case UnsupportedFormat => r == UnsupportedMessage
  {
    var fname := FileKey(upload.name);
    var mime := readers.guessMime(fname);
    if IsTextMime(mime) then readers.decodeUtf8(upload.content)
    else if IsWordName(fname) then DocxText(readers, upload.content)
    else if IsPdfName(fname) then PdfText(readers, upload.content)
    else UnsupportedMessage
  }

  /** Extraction ignores the case of the file name ... */
  lemma ExtractIgnoresCase(readers: Readers, name: string, content: seq<byte>)
    ensures ExtractText(readers, Upload(Lower(name), content)) == ExtractText(readers, Upload(name, content))
  {
    PathNameOfLower(name);
    assert Lower(Lower(PathName(name))) == Lower(PathName(name));
  }

  /** ... and the directory the file name carries. */
  lemma ExtractIgnoresDirectory(readers: Readers, dir: string, base: string, content: seq<byte>)
    requires base != "" && base != "."
    requires forall k :: 0 <= k < |base| ==> base[k] != '/'
    ensures ExtractText(readers, Upload(dir + "/" + base, content)) == ExtractText(readers, Upload(base, content))
  {
    PathNameOfJoin(dir, base);
    assert PathName(base) == base by {
      assert AfterLastSlash(base) == 0;
    }
  }

  /** A name that is neither text-typed nor has a known ending gets the
      unsupported-format placeholder. */
  lemma UnknownFormatIsUnsupported(readers: Readers, upload: Upload)
    requires !IsTextMime(readers.guessMime(FileKey(upload.name)))
    requires !IsWordName(FileKey(upload.name)) && !IsPdfName(FileKey(upload.name))
    ensures ExtractText(readers, upload) == UnsupportedMessage
  {
  }
}
